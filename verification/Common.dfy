/** Types that several components share. */
module Common {

  datatype Option<T> = None | Some(value: T)

  // One octet, as a number.
  type Byte = x: nat | x < 256

  // Octets whose bits matter.
  type Bytes = seq<bv8>
}
