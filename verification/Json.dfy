/** The flat JSON printer and the search-based getter that reads it back. */
module Json {
  import opened Common

  type Field = (string, string)   // key, and value text inserted verbatim

  function Str(s: string): string
  {
    "\"" + s + "\""
  }

  function Entry(f: Field): (e: string)
    ensures |e| == |f.0| + 3 + |f.1|
  {
    ['"'] + f.0 + ['"', ':'] + f.1
  }

  function Fields(kv: seq<Field>): string
    requires kv != []
  {
    if |kv| == 1 then Entry(kv[0]) + ['}'] else Entry(kv[0]) + [','] + Fields(kv[1..])
  }

  function Obj(kv: seq<Field>): string
  {
    if kv == [] then "{}" else ['{'] + Fields(kv)
  }

  /** A field and an object on the wire. */
  lemma ObjText(f: Field, g: Field)
    ensures Entry(f) == "\"" + f.0 + "\":" + f.1
    ensures Obj([f, g]) == "{" + (Entry(f) + "," + (Entry(g) + "}"))
  {
    assert "\"" + f.0 + "\":" == ['"'] + f.0 + ['"', ':'];
    hide Entry;
    var kv := [f, g];
    assert kv[1..] == [g];
    assert Fields([g]) == Entry(g) + "}";
    assert Fields(kv) == Entry(f) + "," + Fields(kv[1..]);
  }

  /** The printing loop. */
  method PrintObj(kv: seq<Field>) returns (out: string)
    ensures out == Obj(kv)
  {
    out := "{";
    for i := 0 to |kv|
      invariant kv == [] ==> out == "{"
      invariant kv != [] && i < |kv| ==> out + Fields(kv[i..]) == Obj(kv)
      invariant kv != [] && i == |kv| ==> out + ['}'] == Obj(kv)
    {
      ghost var before := out;
      ghost var rest := kv[i..];
      out := out + "\"" + kv[i].0 + "\":" + kv[i].1;
      assert out == before + Entry(kv[i]);
      if i + 1 < |kv| {
        out := out + ",";
        assert rest[1..] == kv[i + 1..];
        assert before + (Entry(kv[i]) + [','] + Fields(kv[i + 1..])) == out + Fields(kv[i + 1..]);
      } else {
        assert before + (Entry(kv[i]) + ['}']) == out + ['}'];
      }
    }
    out := out + "}";
  }

  // ---------------------------------------------------------------- the getter

  predicate MatchAt(text: string, needle: string, p: nat)
  {
    p + |needle| <= |text| && text[p..p + |needle|] == needle
  }

  /** The first occurrence from position p on. */
  function IndexOf(text: string, needle: string, p: nat): (r: Option<nat>)
    decreases |text| - p
  {
    if p > |text| then None else if MatchAt(text, needle, p) then Some(p) else IndexOf(text, needle, p + 1)
  }

  /** First position from p on of one of these characters, or the end. */
  function FirstOf(text: string, cs: set<char>, p: nat): (e: nat)
    requires p <= |text|
    ensures p <= e <= |text| && (forall i :: p <= i < e ==> text[i] !in cs) && (e < |text| ==> text[e] in cs)
    decreases |text| - p
  {
    if p == |text| || text[p] in cs then p else FirstOf(text, cs, p + 1)
  }

  function Needle(key: string): (n: string)
    ensures |n| == |key| + 3
  {
    ['"'] + key + ['"', ':']
  }

  /** The value that starts at p: up to the next quote, or a bare token. */
  function ValueAt(text: string, p: nat): string
    requires p <= |text|
  {
    if p < |text| && text[p] == '"' then text[p + 1..FirstOf(text, {'"'}, p + 1)]
    else text[p..FirstOf(text, {',', '}'}, p)]
  }

  function Get(text: string, key: string): string
  {
    match IndexOf(text, Needle(key), 0)
    case None => ""
    case Some(p) => if p + |Needle(key)| <= |text| then ValueAt(text, p + |Needle(key)|) else ""
  }

  // ---------------------------------------------------------------- flat fields

  predicate KeyOk(k: string)
  {
    '"' !in k && ':' !in k && ',' !in k && '}' !in k
  }

  predicate Quoted(v: string)
  {
    |v| >= 2 && v[0] == '"' && v[|v| - 1] == '"' && '"' !in v[1..|v| - 1]
  }

  predicate Bare(v: string)
  {
    '"' !in v && ',' !in v && '}' !in v
  }

  predicate Flat(f: Field)
  {
    KeyOk(f.0) && (Quoted(f.1) || Bare(f.1))
  }

  /** The value text v reads as this: what is between its first two quotes, or itself. */
  predicate ReadsAs(v: string, want: string)
  {
    || (Bare(v) && want == v)
    || (|want| + 2 <= |v| && v[0] == '"' && '"' !in want && v[1..1 + |want|] == want && v[1 + |want|] == '"')
  }

  /** What the getter is to return for a flat field. */
  function Unquote(v: string): string
  {
    if Quoted(v) then v[1..|v| - 1] else v
  }

  /** The needle opens at p exactly if a quote, the key, a quote and a colon stand there. */
  lemma NeedleAt(text: string, key: string, p: nat)
    requires p + |key| + 3 <= |text|
    ensures MatchAt(text, Needle(key), p) <==>
            && text[p] == '"' && text[p + 1..p + 1 + |key|] == key
            && text[p + 1 + |key|] == '"' && text[p + 2 + |key|] == ':'
  {
    var n, w := Needle(key), text[p..p + |key| + 3];
    assert n[0] == '"' && n[1..1 + |key|] == key && n[1 + |key|] == '"' && n[2 + |key|] == ':';
    assert w[0] == text[p];
    SliceOfSlice(text, p, |key| + 3, 1, 1 + |key|);
    assert w[1 + |key|] == text[p + 1 + |key|] && w[2 + |key|] == text[p + 2 + |key|];
    if && w[0] == n[0] && w[1..1 + |key|] == n[1..1 + |key|]
       && w[1 + |key|] == n[1 + |key|] && w[2 + |key|] == n[2 + |key|]
    {
      assert w == [w[0]] + w[1..1 + |key|] + [w[1 + |key|], w[2 + |key|]];
      assert n == [n[0]] + n[1..1 + |key|] + [n[1 + |key|], n[2 + |key|]];
    }
  }

  lemma SliceOfSlice(text: string, p: nat, n: nat, a: nat, b: nat)
    requires p + n <= |text| && a <= b <= n
    ensures text[p..p + n][a..b] == text[p + a..p + b]
  {
    var u, v := text[p..p + n][a..b], text[p + a..p + b];
    assert |u| == |v| && forall i :: 0 <= i < |u| ==> u[i] == v[i];
  }

  /** Between two quotes with s between them, the needle fits only if s is the key and a colon
      follows. */
  lemma Between(text: string, key: string, p: nat, s: string)
    requires '"' !in key && '"' !in s
    requires p + |s| + 2 < |text| && text[p + 1..p + 1 + |s|] == s && text[p + 1 + |s|] == '"'
    requires s != key || text[p + 2 + |s|] != ':'
    ensures !MatchAt(text, Needle(key), p)
  {
    if p + |key| + 3 <= |text| {
      NeedleAt(text, key, p);
      if |key| < |s| {
        assert text[p + 1 + |key|] == s[|key|];
        assert s[|key|] in s;
      } else if |s| < |key| {
        assert text[p + 1..p + 1 + |key|][|s|] == text[p + 1 + |s|] == '"';
        assert key[|s|] in key;
      }
    }
  }

  /** After the closing quote stands a character that no key contains. */
  lemma Closing(text: string, key: string, p: nat)
    requires KeyOk(key) && p + 1 < |text| && text[p + 1] in {':', ',', '}'}
    ensures !MatchAt(text, Needle(key), p)
  {
    if p + |key| + 3 <= |text| {
      NeedleAt(text, key, p);
      if key != "" {
        assert text[p + 1..p + 1 + |key|][0] == text[p + 1];
        assert key[0] in key;
      }
    }
  }

  lemma NotQuote(text: string, key: string, p: nat)
    requires p < |text| && text[p] != '"'
    ensures !MatchAt(text, Needle(key), p)
  {
    if p + |key| + 3 <= |text| {
      NeedleAt(text, key, p);
    }
  }

  /** Where the parts of a field stand in a text. */
  lemma EntryShape(pre: string, f: Field, c: char, rest: string)
    ensures var text, o, k, v := pre + (Entry(f) + [c] + rest), |pre|, f.0, f.1;
            var at := o + |k| + 3;
            && at + |v| < |text|
            && text[o] == '"' && text[o + 1..o + 1 + |k|] == k && text[o + 1 + |k|] == '"' && text[o + 2 + |k|] == ':'
            && text[at..at + |v|] == v && text[at + |v|] == c
  {
  }

  /** No occurrence begins inside a flat field with another key, or at the mark after it. */
  lemma SkipEntry(pre: string, f: Field, c: char, rest: string, key: string, p: nat)
    requires Flat(f) && KeyOk(key) && f.0 != key && c in {',', '}'}
    requires |pre| <= p <= |pre| + |Entry(f)|
    ensures !MatchAt(pre + (Entry(f) + [c] + rest), Needle(key), p)
  {
    EntryShape(pre, f, c, rest);
    hide Entry, MatchAt, Needle;
    SkipText(pre + (Entry(f) + [c] + rest), f.0, f.1, c, |pre|, key, p);
  }

  lemma SkipText(text: string, k: string, v: string, c: char, o: nat, key: string, p: nat)
    requires Flat((k, v)) && KeyOk(key) && k != key && c in {',', '}'}
    requires var at := o + |k| + 3;
             && o <= p <= at + |v| < |text|
             && text[o] == '"' && text[o + 1..o + 1 + |k|] == k && text[o + 1 + |k|] == '"' && text[o + 2 + |k|] == ':'
             && text[at..at + |v|] == v && text[at + |v|] == c
    ensures !MatchAt(text, Needle(key), p)
  {
    hide MatchAt, Needle;
    var at := o + |k| + 3;
    if p == o {
      Between(text, key, p, k);
    } else if p == o + 1 + |k| {
      Closing(text, key, p);
    } else if Quoted(v) && p == at {
      QuotedText(text, v, at);
      Between(text, key, p, v[1..|v| - 1]);
    } else if Quoted(v) && p == at + |v| - 1 {
      Closing(text, key, p);
    } else {
      PlainChar(k, v, c, text, o, p);
      NotQuote(text, key, p);
    }
  }

  lemma QuotedText(text: string, v: string, at: nat)
    requires Quoted(v) && at + |v| <= |text| && text[at..at + |v|] == v
    ensures text[at + 1..at + 1 + (|v| - 2)] == v[1..|v| - 1] && text[at + |v| - 1] == v[|v| - 1]
  {
    var inner := text[at + 1..at + 1 + (|v| - 2)];
    forall i | 0 <= i < |v| - 2 ensures inner[i] == v[i + 1] {
      assert text[at..at + |v|][i + 1] == text[at + 1 + i];
    }
    assert text[at..at + |v|][|v| - 1] == text[at + |v| - 1];
  }

  /** Every other character of the field is not a quote. */
  lemma PlainChar(k: string, v: string, c: char, text: string, o: nat, p: nat)
    requires '"' !in k && (Quoted(v) || Bare(v)) && c != '"'
    requires var at := o + |k| + 3;
             && at + |v| < |text| && text[o + 1..o + 1 + |k|] == k && text[o + 2 + |k|] == ':'
             && text[at..at + |v|] == v && text[at + |v|] == c && o < p <= at + |v|
             && p != o + 1 + |k| && !(Quoted(v) && (p == at || p == at + |v| - 1))
    ensures text[p] != '"'
  {
    var at := o + |k| + 3;
    if p <= o + |k| {
      assert text[p] == k[p - o - 1];
    } else if at <= p < at + |v| {
      assert text[p] == v[p - at];
      if Quoted(v) {
        assert v[p - at] == v[1..|v| - 1][p - at - 1];
      }
    }
  }

  lemma {:induction false} IndexSkip(text: string, needle: string, a: nat, b: nat)
    requires a <= b <= |text| && forall p :: a <= p < b ==> !MatchAt(text, needle, p)
    ensures IndexOf(text, needle, a) == IndexOf(text, needle, b)
    decreases b - a
  {
    if a < b {
      IndexSkip(text, needle, a + 1, b);
    }
  }

  /** The value text right after the needle is read as it should. */
  lemma ReadsValue(pre: string, f: Field, c: char, rest: string, want: string)
    requires ReadsAs(f.1, want) && c in {',', '}'}
    ensures ValueAt(pre + (Entry(f) + [c] + rest), |pre| + |f.0| + 3) == want
  {
    EntryShape(pre, f, c, rest);
    hide Entry;
    ReadsText(pre + (Entry(f) + [c] + rest), |pre| + |f.0| + 3, f.1, c, want);
  }

  lemma ReadsText(text: string, at: nat, v: string, c: char, want: string)
    requires ReadsAs(v, want) && c in {',', '}'}
    requires at + |v| < |text| && text[at..at + |v|] == v && text[at + |v|] == c
    ensures ValueAt(text, at) == want
  {
    if Bare(v) && want == v {
      assert v != "" ==> text[at] == v[0] && v[0] in v;
      TokenEnd(text, at, v, FirstOf(text, {',', '}'}, at));
    } else {
      assert text[at] == v[0] && text[at + 1 + |want|] == v[1 + |want|] == '"';
      SliceOfSlice(text, at, |v|, 1, 1 + |want|);
      QuoteEnd(text, at + 1, want, FirstOf(text, {'"'}, at + 1));
    }
  }

  lemma QuoteEnd(text: string, at: nat, want: string, e: nat)
    requires '"' !in want && at + |want| < |text| && text[at..at + |want|] == want && text[at + |want|] == '"'
    requires at <= e <= |text| && (forall i :: at <= i < e ==> text[i] != '"') && (e < |text| ==> text[e] == '"')
    ensures e == at + |want|
  {
    forall i | at <= i < at + |want| ensures text[i] != '"' {
      assert text[i] == want[i - at] && want[i - at] in want;
    }
  }

  lemma TokenEnd(text: string, at: nat, v: string, e: nat)
    requires Bare(v) && at + |v| < |text| && text[at..at + |v|] == v && text[at + |v|] in {',', '}'} && at <= e <= |text|
    requires (forall i :: at <= i < e ==> text[i] !in {',', '}'}) && (e < |text| ==> text[e] in {',', '}'})
    ensures e == at + |v| && text[at..e] == v
  {
    forall i | at <= i < at + |v| ensures text[i] !in {',', '}'} {
      assert text[i] == v[i - at] && v[i - at] in v;
    }
  }

  function Mark(kv: seq<Field>): char
    requires kv != []
  {
    if |kv| == 1 then '}' else ','
  }

  function After(kv: seq<Field>): string
    requires kv != []
  {
    if |kv| == 1 then "" else Fields(kv[1..])
  }

  lemma FieldsSplit(kv: seq<Field>)
    requires kv != []
    ensures Fields(kv) == Entry(kv[0]) + [Mark(kv)] + After(kv)
  {
  }

  lemma {:induction false} GetFrom(pre: string, kv: seq<Field>, i: nat, key: string, want: string)
    requires i < |kv| && kv[i].0 == key && KeyOk(key) && ReadsAs(kv[i].1, want)
    requires forall j :: 0 <= j < i ==> Flat(kv[j]) && kv[j].0 != key
    ensures var q := IndexOf(pre + Fields(kv), Needle(key), |pre|);
            q.Some? && q.value + |key| + 3 <= |pre + Fields(kv)|
            && ValueAt(pre + Fields(kv), q.value + |key| + 3) == want
    decreases i
  {
    hide ValueAt, Needle, Entry, ReadsAs, IndexOf, MatchAt, Flat, Fields;
    FieldsSplit(kv);
    if i == 0 {
      StartsWith(pre, kv[0], Mark(kv), After(kv));
      IndexHere(pre + Fields(kv), Needle(key), |pre|);
      ReadsValue(pre, kv[0], Mark(kv), After(kv), want);
    } else {
      var pre' := pre + Entry(kv[0]) + [','];
      SkipField(pre, kv, key);
      GetFrom(pre', kv[1..], i - 1, key, want);
    }
  }

  lemma IndexHere(text: string, needle: string, p: nat)
    requires p <= |text| && MatchAt(text, needle, p)
    ensures IndexOf(text, needle, p) == Some(p)
  {
  }

  /** A field with another key is passed over. */
  lemma SkipField(pre: string, kv: seq<Field>, key: string)
    requires |kv| >= 2 && Flat(kv[0]) && KeyOk(key) && kv[0].0 != key
    ensures var pre' := pre + Entry(kv[0]) + [','];
            && pre + Fields(kv) == pre' + Fields(kv[1..])
            && IndexOf(pre + Fields(kv), Needle(key), |pre|) == IndexOf(pre' + Fields(kv[1..]), Needle(key), |pre'|)
  {
    hide Needle, Entry, IndexOf, MatchAt, Flat;
    FieldsSplit(kv);
    var text, f, c, rest := pre + Fields(kv), kv[0], Mark(kv), After(kv);
    forall p | |pre| <= p < |pre| + |Entry(f)| + 1 ensures !MatchAt(text, Needle(key), p) {
      SkipEntry(pre, f, c, rest, key, p);
    }
    IndexSkip(text, Needle(key), |pre|, |pre| + |Entry(f)| + 1);
    assert text == pre + Entry(f) + [','] + Fields(kv[1..]);
  }

  lemma StartsWith(pre: string, f: Field, c: char, rest: string)
    ensures MatchAt(pre + (Entry(f) + [c] + rest), Needle(f.0), |pre|)
  {
    var text := pre + (Entry(f) + [c] + rest);
    assert text[|pre|..|pre| + |f.0| + 3] == Needle(f.0);
  }

  lemma GetReads(kv: seq<Field>, i: nat, key: string, want: string)
    requires i < |kv| && kv[i].0 == key && KeyOk(key) && ReadsAs(kv[i].1, want)
    requires forall j :: 0 <= j < i ==> Flat(kv[j]) && kv[j].0 != key
    ensures Get(Obj(kv), key) == want
  {
    hide ValueAt, Needle, Fields, ReadsAs;
    assert Obj(kv) == ['{'] + Fields(kv);
    NotQuote(Obj(kv), key, 0);
    GetFrom(['{'], kv, i, key, want);
  }

  /** The getter returns the value of the first field with that key, as long as that field and
      those before it are flat; what comes after does not matter. */
  lemma GetField(kv: seq<Field>, i: nat, key: string)
    requires i < |kv| && kv[i].0 == key
    requires forall j :: 0 <= j <= i ==> Flat(kv[j])
    requires forall j :: 0 <= j < i ==> kv[j].0 != key
    ensures Get(Obj(kv), key) == Unquote(kv[i].1)
  {
    var v := kv[i].1;
    if Quoted(v) {
      var want := v[1..|v| - 1];
      assert v[1..1 + |want|] == want && v[1 + |want|] == '"';
    }
    GetReads(kv, i, key, Unquote(v));
  }

  lemma {:induction false} AbsentFrom(pre: string, kv: seq<Field>, key: string)
    requires KeyOk(key) && kv != [] && forall j :: 0 <= j < |kv| ==> Flat(kv[j]) && kv[j].0 != key
    ensures IndexOf(pre + Fields(kv), Needle(key), |pre|) == None
    decreases |kv|
  {
    hide Needle, Entry;
    FieldsSplit(kv);
    var text, f, c, rest := pre + Fields(kv), kv[0], Mark(kv), After(kv);
    forall p | |pre| <= p < |pre| + |Entry(f)| + 1 ensures !MatchAt(text, Needle(key), p) {
      SkipEntry(pre, f, c, rest, key, p);
    }
    IndexSkip(text, Needle(key), |pre|, |pre| + |Entry(f)| + 1);
    if |kv| > 1 {
      var pre' := pre + Entry(f) + [','];
      assert text == pre' + Fields(kv[1..]);
      AbsentFrom(pre', kv[1..], key);
    } else {
      assert |text| == |pre| + |Entry(f)| + 1;
    }
  }

  /** A key that a flat object does not have reads as the empty string. */
  lemma GetAbsent(kv: seq<Field>, key: string)
    requires KeyOk(key) && forall j :: 0 <= j < |kv| ==> Flat(kv[j]) && kv[j].0 != key
    ensures Get(Obj(kv), key) == ""
  {
    hide Needle, Fields;
    var text := Obj(kv);
    NotQuote(text, key, 0);
    if kv != [] {
      assert text == ['{'] + Fields(kv);
      AbsentFrom(['{'], kv, key);
    }
  }

  /** A quoted value with quotes inside is cut at its first inner quote: nested objects do not
      survive. */
  lemma NestedIsCut(kv: seq<Field>, i: nat, key: string, a: string, b: string)
    requires i < |kv| && kv[i].0 == key && kv[i].1 == Str(a + "\"" + b) && '"' !in a && KeyOk(key)
    requires forall j :: 0 <= j < i ==> Flat(kv[j]) && kv[j].0 != key
    ensures Get(Obj(kv), key) == a
  {
    var v := kv[i].1;
    assert v == ['"'] + a + (['"'] + b + ['"']);
    assert v[1..1 + |a|] == a && v[1 + |a|] == '"';
    GetReads(kv, i, key, a);
  }
}
