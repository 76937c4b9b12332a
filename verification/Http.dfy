/** HTTP/1.1 messages as the 5G nodes print them and read them off a byte stream. */
module Http {
  import opened Common
  import opened Bits

  // ---------------------------------------------------------------- decimal numbers

  function Digit(d: nat): char
    requires d < 10
  {
    '0' + d as char
  }

  predicate IsDigit(c: char)
  {
    '0' <= c <= '9'
  }

  function DigitValue(c: char): nat
    requires IsDigit(c)
  {
    (c - '0') as nat
  }

  function Decimal(n: nat): (s: string)
    ensures |s| >= 1 && IsDigit(s[0])
  {
    if n < 10 then [Digit(n)] else Decimal(n / 10) + [Digit(n % 10)]
  }

  /** Value of the longest run of digits at the front, continuing from acc. */
  function LeadingValue(s: string, acc: nat): nat
  {
    if s == "" || !IsDigit(s[0]) then acc else LeadingValue(s[1..], 10 * acc + DigitValue(s[0]))
  }

  lemma {:induction false} DecimalValue(n: nat, rest: string)
    requires rest == "" || !IsDigit(rest[0])
    ensures LeadingValue(Decimal(n) + rest, 0) == n
  {
    LeadingDecimal(n, "", rest);
    assert Decimal(n) + "" + rest == Decimal(n) + rest;
  }

  function Append10(acc: nat, ds: string): nat
    requires forall c :: c in ds ==> IsDigit(c)
    decreases |ds|
  {
    if ds == "" then acc else Append10(10 * acc + DigitValue(ds[0]), ds[1..])
  }

  lemma {:induction false} LeadingRun(ds: string, rest: string, acc: nat)
    requires forall c :: c in ds ==> IsDigit(c)
    requires rest == "" || !IsDigit(rest[0])
    ensures LeadingValue(ds + rest, acc) == Append10(acc, ds)
    decreases |ds|
  {
    if ds == "" {
      assert ds + rest == rest;
    } else {
      assert (ds + rest)[1..] == ds[1..] + rest;
      LeadingRun(ds[1..], rest, 10 * acc + DigitValue(ds[0]));
    }
  }

  lemma {:induction false} LeadingDecimal(n: nat, ds: string, rest: string)
    requires forall c :: c in ds ==> IsDigit(c)
    requires rest == "" || !IsDigit(rest[0])
    ensures LeadingValue(Decimal(n) + ds + rest, 0) == Append10(n, ds)
  {
    if n < 10 {
      assert (Decimal(n) + ds + rest)[1..] == ds + rest;
      LeadingRun(ds, rest, n);
    } else {
      var d := [Digit(n % 10)];
      assert Decimal(n) + ds + rest == Decimal(n / 10) + (d + ds) + rest;
      assert (d + ds)[1..] == ds && (d + ds)[0] == d[0];
      LeadingDecimal(n / 10, d + ds, rest);
    }
  }

  predicate IsSpace(c: char)
  {
    c == ' ' || '\t' <= c <= '\r'
  }

  /** std::stoul in base 10: None where it throws. A minus sign negates modulo 2^64. */
  function Stoul(s: string): Option<nat>
  {
    if s != "" && IsSpace(s[0]) then Stoul(s[1..])
    else
      var t := if s != "" && (s[0] == '+' || s[0] == '-') then s[1..] else s;
      if t == "" || !IsDigit(t[0]) then None
      else
        var v := LeadingValue(t, 0);
        if v >= SIZE_MOD then None
        else Some(if s[0] == '-' then (SIZE_MOD - v) % SIZE_MOD else v)
  }

  lemma StoulDecimal(n: nat)
    requires n < SIZE_MOD
    ensures Stoul(Decimal(n)) == Some(n)
  {
    DecimalValue(n, "");
    assert Decimal(n) + "" == Decimal(n);
  }

  // ---------------------------------------------------------------- building

  const CRLF := "\r\n"
  const BLANK := "\r\n\r\n"
  const TYPE_LINE := "Content-Type: application/json"
  const LENGTH_KEY := "Content-Length"

  function LengthLine(n: nat): string
  {
    LENGTH_KEY + ": " + Decimal(n)
  }

  function Build(startLine: string, body: string, extraHeader: string): string
  {
    startLine + CRLF + (if extraHeader != "" then extraHeader + CRLF else "")
    + TYPE_LINE + CRLF + LengthLine(|body|) + CRLF + CRLF + body
  }

  /** The line that gives the body's length. */
  lemma LengthText(n: nat)
    ensures LengthLine(n) == "Content-Length: " + Decimal(n)
  {
    hide Decimal;
    assert LENGTH_KEY + ": " == "Content-Length: ";
  }

  // ---------------------------------------------------------------- receiving

  /** The first n characters of the stream end with a blank line. */
  predicate EndAt(s: string, n: nat)
  {
    4 <= n <= |s| && s[n - 4..n] == BLANK
  }

  /** The first such n, from n on. */
  function FindEnd(s: string, n: nat): (e: Option<nat>)
    ensures e.Some? ==> EndAt(s, e.value) && n <= e.value
    decreases |s| - n
  {
    if n > |s| then None else if EndAt(s, n) then Some(n) else FindEnd(s, n + 1)
  }

  lemma FindEndStep(s: string, n: nat)
    requires n <= |s|
    ensures EndAt(s, n) ==> FindEnd(s, n) == Some(n)
    ensures !EndAt(s, n) ==> FindEnd(s, n) == if n < |s| then FindEnd(s, n + 1) else None
  {
  }

  function Find(s: string, c: char): (i: nat)
    ensures i <= |s| && (i < |s| ==> s[i] == c)
    ensures forall j :: 0 <= j < i ==> s[j] != c
  {
    if s == "" || s[0] == c then 0 else 1 + Find(s[1..], c)
  }

  /** The lines that repeated std::getline yields: the last one need not be terminated. */
  function Lines(s: string): seq<string>
  {
    if s == "" then []
    else
      var i := Find(s, '\n');
      if i == |s| then [s] else [s[..i]] + Lines(s[i + 1..])
  }

  function StripCr(s: string): string
  {
    if s != "" && s[|s| - 1] == '\r' then s[..|s| - 1] else s
  }

  function TrimSpaces(s: string): string
  {
    if s != "" && s[0] == ' ' then TrimSpaces(s[1..]) else s
  }

  type Headers = map<string, string>

  /** A line without a colon is passed over; a later value replaces an earlier one. */
  function AddHeader(h: Headers, line: string): Headers
  {
    var l := StripCr(line);
    var i := Find(l, ':');
    if i == |l| then h else h[l[..i] := TrimSpaces(l[i + 1..])]
  }

  function AddHeaders(h: Headers, lines: seq<string>): Headers
    decreases |lines|
  {
    if lines == [] then h else AddHeaders(AddHeader(h, lines[0]), lines[1..])
  }

  datatype Received =
    | Closed        // the stream ends before the message does
    | BadLength     // std::stoul throws
    | Message(startLine: string, headers: Headers, body: string)

  function StartOf(lines: seq<string>): string
  {
    if lines == [] then "" else StripCr(lines[0])
  }

  /** Declared length, 0 when there is no such header. */
  function BodyLength(h: Headers): Option<nat>
  {
    if LENGTH_KEY in h then Stoul(h[LENGTH_KEY]) else Some(0)
  }

  function Zeros(n: nat): (z: string)
    ensures |z| == n
  {
    seq(n, _ => '\0')
  }

  /** The head ends at e; its lines are known. The length handed to the socket is cut to 32
      bits. */
  function AfterHead(lines: seq<string>, s: string, e: nat): (Received, string)
    requires e <= |s|
  {
    var headers := AddHeaders(map[], if lines == [] then [] else lines[1..]);
    match BodyLength(headers)
    case None => (BadLength, s[e..])
    case Some(n) =>
      var m := n % U32_MOD;
      if e + m > |s| then (Closed, "")
      else (Message(StartOf(lines), headers, s[e..e + m] + Zeros(n - m)), s[e + m..])
  }

  /** One message off the front of the stream, and what is left unread. */
  function Receive(s: string): (Received, string)
  {
    match FindEnd(s, 0)
    case None => (Closed, "")
    case Some(e) => AfterHead(Lines(s[..e - 4]), s, e)
  }

  // ---------------------------------------------------------------- the two undo each other

  predicate NoCrLf(s: string)
  {
    forall c :: c in s ==> c != '\r' && c != '\n'
  }

  /** Lines with CR LF between them. */
  function Joined(lines: seq<string>): string
    requires lines != []
  {
    if |lines| == 1 then lines[0] else lines[0] + CRLF + Joined(lines[1..])
  }

  ghost predicate LinesOk(lines: seq<string>)
  {
    && lines != []
    && (forall i :: 0 <= i < |lines| ==> NoCrLf(lines[i]))
    && (forall i :: 1 <= i < |lines| ==> lines[i] != "")
  }

  lemma InTail(a: string, b: string, n: nat)
    requires n - 4 >= |a|
    ensures EndAt(a + b, n) <==> EndAt(b, n - |a|)
  {
    if n <= |a + b| {
      assert (a + b)[n - 4..n] == b[n - |a| - 4..n - |a|];
    }
  }

  /** What a blank line ending at n looks like, character by character. */
  lemma EndChars(s: string, n: nat)
    requires 4 <= n <= |s|
    ensures EndAt(s, n) <==> s[n - 4] == '\r' && s[n - 3] == '\n' && s[n - 2] == '\r' && s[n - 1] == '\n'
  {
    var w := s[n - 4..n];
    assert s[n - 4] == w[0] && s[n - 3] == w[1] && s[n - 2] == w[2] && s[n - 1] == w[3];
    assert |BLANK| == 4;
  }

  lemma NotInLine(l: string, t: string, n: nat)
    requires NoCrLf(l) && 4 <= n <= |l| + 4 && (n == |l| + 4 ==> |t| >= 2 && t[0] != '\r')
    requires n <= |l + CRLF + t|
    ensures !EndAt(l + CRLF + t, n)
  {
    var s := l + CRLF + t;
    EndChars(s, n);
    if n < |l| + 4 {
      assert s[n - 4] == l[n - 4] && l[n - 4] in l;
    } else {
      assert s[n - 2] == t[0];
    }
  }

  /** The first blank line is the one after the last line. */
  lemma {:induction false} NoEarlyEnd(lines: seq<string>, rest: string, n: nat)
    requires LinesOk(lines) && 4 <= n < |Joined(lines)| + 4
    ensures !EndAt(Joined(lines) + BLANK + rest, n)
    decreases |lines|
  {
    var l := lines[0];
    var s := Joined(lines) + BLANK + rest;
    if |lines| == 1 {
      assert s == l + CRLF + (CRLF + rest);
      NotInLine(l, CRLF + rest, n);
    } else {
      var t := Joined(lines[1..]) + BLANK + rest;
      assert s == l + CRLF + t && t[0] == lines[1][0] && lines[1][0] in lines[1];
      if n <= |l| + 4 {
        NotInLine(l, t, n);
      } else if n == |l| + 5 {
        EndChars(s, n);
        assert s[n - 4] == '\n';
      } else {
        InTail(l + CRLF, t, n);
        if n - |l| - 2 >= 4 {
          NoEarlyEnd(lines[1..], rest, n - |l| - 2);
        }
      }
    }
  }

  lemma {:induction false} FindEndIs(s: string, n: nat, e: nat)
    requires n <= e && EndAt(s, e) && forall m :: n <= m < e ==> !EndAt(s, m)
    ensures FindEnd(s, n) == Some(e)
    decreases e - n
  {
    if n < e {
      FindEndIs(s, n + 1, e);
    }
  }

  lemma EndOfHead(lines: seq<string>, rest: string)
    requires LinesOk(lines)
    ensures FindEnd(Joined(lines) + BLANK + rest, 0) == Some(|Joined(lines)| + 4)
  {
    var s, e := Joined(lines) + BLANK + rest, |Joined(lines)| + 4;
    assert |BLANK| == 4 && s[e - 4..e] == BLANK;
    forall m | 0 <= m < e ensures !EndAt(s, m) {
      if m >= 4 {
        NoEarlyEnd(lines, rest, m);
      }
    }
    FindEndIs(s, 0, e);
  }

  lemma {:induction false} FindNone(s: string, c: char, rest: string)
    requires c !in s
    ensures Find(s + [c] + rest, c) == |s|
  {
    if s != "" {
      assert (s + [c] + rest)[1..] == s[1..] + [c] + rest;
      FindNone(s[1..], c, rest);
    }
  }

  lemma {:induction false} FindAbsent(s: string, c: char)
    requires c !in s
    ensures Find(s, c) == |s|
  {
    if s != "" {
      FindAbsent(s[1..], c);
    }
  }

  lemma LineCut(l: string, tail: string)
    requires NoCrLf(l)
    ensures Lines(l + CRLF + tail) == [l + "\r"] + Lines(tail)
    ensures StripCr(l + "\r") == l
  {
    var head := l + "\r" + ['\n'] + tail;
    assert l + CRLF + tail == head;
    FindNone(l + "\r", '\n', tail);
    assert head[..|l| + 1] == l + "\r" && head[|l| + 2..] == tail;
  }

  lemma LastLine(l: string)
    requires NoCrLf(l) && l != ""
    ensures Lines(l) == [l] && StripCr(l) == l
  {
    FindAbsent(l, '\n');
    assert l[|l| - 1] in l;
  }

  /** The head read line by line. */
  lemma {:induction false} LinesOfHead(lines: seq<string>)
    requires LinesOk(lines) && lines[|lines| - 1] != ""
    ensures var got := Lines(Joined(lines));
            |got| == |lines| && forall i :: 0 <= i < |lines| ==> StripCr(got[i]) == lines[i]
    decreases |lines|
  {
    hide Lines, StripCr, NoCrLf;
    if |lines| == 1 {
      LastLine(lines[0]);
    } else {
      LineCut(lines[0], Joined(lines[1..]));
      LinesOfHead(lines[1..]);
    }
  }

  function HeadLines(startLine: string, n: nat, extraHeader: string): seq<string>
  {
    [startLine] + (if extraHeader != "" then [extraHeader] else []) + [TYPE_LINE, LengthLine(n)]
  }

  lemma JoinedCons(l: string, lines: seq<string>)
    requires lines != []
    ensures Joined([l] + lines) == l + CRLF + Joined(lines)
  {
    assert ([l] + lines)[1..] == lines;
  }

  /** Regrouping, for any strings. */
  lemma Regroup(l: string, x: string, c: string, t: string, d: string, body: string)
    ensures l + c + (x + c) + t + c + d + c + c + body == l + c + (x + c + (t + c + d)) + (c + c) + body
    ensures l + c + t + c + d + c + c + body == l + c + (t + c + d) + (c + c) + body
  {
  }

  lemma BuildIsHead(startLine: string, body: string, extraHeader: string)
    ensures Build(startLine, body, extraHeader) == Joined(HeadLines(startLine, |body|, extraHeader)) + BLANK + body
  {
    hide LengthLine;
    var len, two := LengthLine(|body|), [TYPE_LINE, LengthLine(|body|)];
    JoinedCons(TYPE_LINE, [len]);
    assert [TYPE_LINE] + [len] == two && Joined(two) == TYPE_LINE + CRLF + len;
    JoinedCons(startLine, two);
    JoinedCons(extraHeader, two);
    JoinedCons(startLine, [extraHeader] + two);
    assert HeadLines(startLine, |body|, extraHeader)
        == if extraHeader == "" then [startLine] + two else [startLine] + ([extraHeader] + two);
    BuildText(startLine, extraHeader, len, body);
  }

  lemma BuildText(startLine: string, extraHeader: string, len: string, body: string)
    requires len == LengthLine(|body|)
    ensures var two := TYPE_LINE + CRLF + len;
            Build(startLine, body, extraHeader) ==
            startLine + CRLF + (if extraHeader == "" then two else extraHeader + CRLF + two) + BLANK + body
  {
    hide LengthLine;
    assert CRLF + CRLF == BLANK;
    Regroup(startLine, extraHeader, CRLF, TYPE_LINE, len, body);
    assert startLine + CRLF + "" == startLine + CRLF;
  }

  lemma {:induction false} DecimalPlain(n: nat)
    ensures forall c :: c in Decimal(n) ==> IsDigit(c)
  {
    if n >= 10 {
      DecimalPlain(n / 10);
    }
  }

  lemma HeadOk(startLine: string, n: nat, extraHeader: string)
    requires NoCrLf(startLine) && NoCrLf(extraHeader)
    ensures LinesOk(HeadLines(startLine, n, extraHeader))
  {
    DecimalPlain(n);
    assert NoCrLf(LengthLine(n)) && NoCrLf(TYPE_LINE);
  }

  lemma {:induction false} AddHeadersLast(h: Headers, lines: seq<string>, last: string)
    ensures AddHeaders(h, lines + [last]) == AddHeader(AddHeaders(h, lines), last)
    decreases |lines|
  {
    hide AddHeader;
    if lines == [] {
      assert lines + [last] == [last] && [last][1..] == [];
    } else {
      assert (lines + [last])[1..] == lines[1..] + [last];
      AddHeadersLast(AddHeader(h, lines[0]), lines[1..], last);
    }
  }

  /** The Content-Length that was printed is the one that counts, whatever came before it. */
  lemma LengthHeader(h: Headers, line: string, n: nat)
    requires StripCr(line) == LengthLine(n) && n < SIZE_MOD
    ensures BodyLength(AddHeader(h, line)) == Some(n)
  {
    hide Decimal, Stoul;
    var l, v := LengthLine(n), " " + Decimal(n);
    assert l == LENGTH_KEY + [':'] + v;
    FindNone(LENGTH_KEY, ':', v);
    assert l[..|LENGTH_KEY|] == LENGTH_KEY && l[|LENGTH_KEY| + 1..] == v;
    assert v[1..] == Decimal(n) && TrimSpaces(v) == Decimal(n);
    StoulDecimal(n);
  }

  lemma HeadersOf(lines: seq<string>, n: nat)
    requires |lines| >= 2 && StripCr(lines[|lines| - 1]) == LengthLine(n) && n < SIZE_MOD
    ensures BodyLength(AddHeaders(map[], lines[1..])) == Some(n)
  {
    hide LengthLine, AddHeader, BodyLength;
    var init, last := lines[1..][..|lines| - 2], lines[|lines| - 1];
    assert lines[1..] == init + [last];
    AddHeadersLast(map[], init, last);
    LengthHeader(AddHeaders(map[], init), last, n);
  }

  lemma AfterHeadOk(lines: seq<string>, front: string, body: string, rest: string)
    requires |lines| >= 2 && StripCr(lines[|lines| - 1]) == LengthLine(|body|) && |body| < U32_MOD
    ensures var (got, left) := AfterHead(lines, front + (body + rest), |front|);
            got.Message? && got.startLine == StripCr(lines[0]) && got.body == body && left == rest
  {
    hide LengthLine, AddHeaders, BodyLength, StripCr;
    HeadersOf(lines, |body|);
    var s, e := front + (body + rest), |front|;
    assert s[e..e + |body|] + Zeros(0) == body && s[e + |body|..] == rest;
  }

  /** Reading a head whose last line gives the length of what follows. */
  lemma ReceiveHead(lines: seq<string>, body: string, rest: string)
    requires LinesOk(lines) && |lines| >= 2 && lines[|lines| - 1] == LengthLine(|body|) && |body| < U32_MOD
    ensures var (got, left) := Receive(Joined(lines) + BLANK + (body + rest));
            got.Message? && got.startLine == lines[0] && got.body == body && left == rest
  {
    hide LengthLine, FindEnd, Lines, AfterHead, Joined, StripCr, Receive;
    var head := Joined(lines);
    var s, e := head + BLANK + (body + rest), |head| + 4;
    EndOfHead(lines, body + rest);
    assert s[..e - 4] == head;
    ReceiveAt(s, e);
    assert |lines[|lines| - 1]| > 0 by { LengthLineLong(|body|); }
    LinesOfHead(lines);
    hide LinesOk;
    AfterHeadOk(Lines(head), head + BLANK, body, rest);
  }

  lemma ReceiveAt(s: string, e: nat)
    requires FindEnd(s, 0) == Some(e) && 4 <= e <= |s|
    ensures Receive(s) == AfterHead(Lines(s[..e - 4]), s, e)
  {
    hide FindEnd, Lines, AfterHead;
  }

  lemma LengthLineLong(n: nat)
    ensures |LengthLine(n)| > 0
  {
  }

  /** Any start line and extra header free of CR and LF, any body, anything following: the
      receiver gets the same start line and body and leaves exactly the following characters. */
  lemma BuildReceive(startLine: string, body: string, extraHeader: string, rest: string)
    requires NoCrLf(startLine) && NoCrLf(extraHeader) && |body| < U32_MOD
    ensures var (got, left) := Receive(Build(startLine, body, extraHeader) + rest);
            got.Message? && got.startLine == startLine && got.body == body && left == rest
  {
    hide Receive, Build, LinesOk, Joined;
    var lines := HeadLines(startLine, |body|, extraHeader);
    BuildIsHead(startLine, body, extraHeader);
    HeadOk(startLine, |body|, extraHeader);
    assert Joined(lines) + BLANK + body + rest == Joined(lines) + BLANK + (body + rest);
    ReceiveHead(lines, body, rest);
  }

  lemma {:induction false} NoEnd(s: string, n: nat)
    requires forall m :: n <= m <= |s| ==> !EndAt(s, m)
    ensures FindEnd(s, n).None?
    decreases |s| - n
  {
    if n <= |s| {
      NoEnd(s, n + 1);
    }
  }

  /** A stream cut off within the head. */
  lemma CutInHead(lines: seq<string>, rest: string, k: nat)
    requires LinesOk(lines) && k < |Joined(lines)| + 4
    ensures Receive((Joined(lines) + BLANK + rest)[..k]) == (Closed, "")
  {
    var s := Joined(lines) + BLANK + rest;
    var cut := s[..k];
    forall m: nat | m <= k ensures !EndAt(cut, m) {
      if m >= 4 {
        NoEarlyEnd(lines, rest, m);
        assert cut[m - 4..m] == s[m - 4..m];
      }
    }
    NoEnd(cut, 0);
    hide FindEnd, AfterHead, Lines, Joined, LinesOk;
  }

  lemma AfterHeadCut(lines: seq<string>, front: string, n: nat, part: string)
    requires |lines| >= 2 && StripCr(lines[|lines| - 1]) == LengthLine(n) && |part| < n < U32_MOD
    ensures AfterHead(lines, front + part, |front|) == (Closed, "")
  {
    hide LengthLine, AddHeaders, BodyLength, StripCr;
    HeadersOf(lines, n);
  }

  /** A stream cut off within the body. */
  lemma CutInBody(lines: seq<string>, n: nat, part: string)
    requires LinesOk(lines) && |lines| >= 2 && lines[|lines| - 1] == LengthLine(n) && |part| < n < U32_MOD
    ensures Receive(Joined(lines) + BLANK + part) == (Closed, "")
  {
    hide LengthLine, FindEnd, Lines, AfterHead, Joined, StripCr, Receive;
    var head := Joined(lines);
    var s, e := head + BLANK + part, |head| + 4;
    EndOfHead(lines, part);
    assert s[..e - 4] == head;
    ReceiveAt(s, e);
    assert |lines[|lines| - 1]| > 0 by { LengthLineLong(n); }
    LinesOfHead(lines);
    hide LinesOk;
    AfterHeadCut(Lines(head), head + BLANK, n, part);
  }

  /** Of a message that does not arrive whole nothing is taken. */
  lemma Truncated(startLine: string, body: string, extraHeader: string, k: nat)
    requires NoCrLf(startLine) && NoCrLf(extraHeader) && |body| < U32_MOD && k < |Build(startLine, body, extraHeader)|
    ensures Receive(Build(startLine, body, extraHeader)[..k]) == (Closed, "")
  {
    hide Receive, Build, LinesOk, Joined;
    var lines := HeadLines(startLine, |body|, extraHeader);
    BuildIsHead(startLine, body, extraHeader);
    HeadOk(startLine, |body|, extraHeader);
    var e := |Joined(lines)| + 4;
    assert |BLANK| == 4;
    if k < e {
      CutInHead(lines, body, k);
    } else {
      assert (Joined(lines) + BLANK + body)[..k] == Joined(lines) + BLANK + body[..k - e];
      CutInBody(lines, |body|, body[..k - e]);
    }
  }

  /** A header line is read as its name and its value. */
  lemma HeaderReads(h: Headers, name: string, value: string)
    requires ':' !in name && NoCrLf(value) && (value != "" ==> value[0] != ' ')
    ensures AddHeader(h, name + ": " + value) == h[name := value]
  {
    var l, v := name + ": " + value, " " + value;
    assert l == name + [':'] + v;
    FindNone(name, ':', v);
    assert l[..|name|] == name && l[|name| + 1..] == v;
    assert v[1..] == value && TrimSpaces(v) == value;
    assert StripCr(l) == l by {
      if value != "" {
        assert value[|value| - 1] in value && l[|l| - 1] == value[|value| - 1];
      } else {
        assert l[|l| - 1] == ' ';
      }
    }
  }

  datatype Sent = Sent(startLine: string, body: string, extraHeader: string)

  function BuildAll(ms: seq<Sent>): string
  {
    if ms == [] then "" else Build(ms[0].startLine, ms[0].body, ms[0].extraHeader) + BuildAll(ms[1..])
  }

  /** The n messages read one after the other, and what is left. */
  function ReceiveN(s: string, n: nat): (seq<Received>, string)
    decreases n
  {
    if n == 0 then ([], s)
    else
      var (m, left) := Receive(s);
      var (ms, end) := ReceiveN(left, n - 1);
      ([m] + ms, end)
  }

  ghost predicate Plain(m: Sent)
  {
    NoCrLf(m.startLine) && NoCrLf(m.extraHeader) && |m.body| < U32_MOD
  }

  predicate Matches(got: Received, m: Sent)
  {
    got.Message? && got.startLine == m.startLine && got.body == m.body
  }

  /** Messages sent back to back come out one by one. */
  lemma {:induction false} StreamSplits(ms: seq<Sent>, rest: string)
    requires forall i :: 0 <= i < |ms| ==> Plain(ms[i])
    ensures var (got, left) := ReceiveN(BuildAll(ms) + rest, |ms|);
            |got| == |ms| && left == rest && forall i :: 0 <= i < |ms| ==> Matches(got[i], ms[i])
    decreases |ms|
  {
    hide Build, Receive, NoCrLf, Matches;
    if ms == [] {
      assert BuildAll(ms) + rest == rest;
    } else {
      var tail := BuildAll(ms[1..]) + rest;
      assert BuildAll(ms) + rest == Build(ms[0].startLine, ms[0].body, ms[0].extraHeader) + tail;
      OneMatches(ms[0], tail);
      StreamSplits(ms[1..], rest);
    }
  }

  lemma OneMatches(m: Sent, rest: string)
    requires Plain(m)
    ensures var (got, left) := Receive(Build(m.startLine, m.body, m.extraHeader) + rest);
            Matches(got, m) && left == rest
  {
    hide Build, Receive, NoCrLf;
    BuildReceive(m.startLine, m.body, m.extraHeader, rest);
  }

  // ---------------------------------------------------------------- the receiving loop

  /** The loop's test on what was received is the test on the stream. */
  lemma SoFar(s: string, raw: string)
    requires raw <= s
    ensures EndAt(s, |raw|) <==> |raw| >= 4 && raw[|raw| - 4..] == BLANK
  {
    if |raw| >= 4 {
      assert s[|raw| - 4..|raw|] == raw[|raw| - 4..];
    }
  }

  lemma Cut(raw: string, rest: string)
    requires |raw| >= 4
    ensures (raw + rest)[..|raw| - 4] == raw[..|raw| - 4] && (raw + rest)[|raw|..] == rest
  {
  }

  /** The reading end of a TCP connection: characters not yet received. */
  class Connection {
    var incoming: string

    constructor (s: string)
      ensures incoming == s
    {
      incoming := s;
    }

    method RecvAll(n: nat) returns (got: Option<string>)
      modifies this
      ensures got == if n <= |old(incoming)| then Some(old(incoming)[..n]) else None
      ensures incoming == if n <= |old(incoming)| then old(incoming)[n..] else ""
    {
      if n > |incoming| {
        incoming := "";
        return None;
      }
      got := Some(incoming[..n]);
      incoming := incoming[n..];
    }

    /** Character by character, up to and including the first blank line. */
    method RecvHead() returns (head: Option<string>)
      modifies this
      ensures var e := FindEnd(old(incoming), 0);
              && head == (if e.None? then None else Some(old(incoming)[..e.value - 4]))
              && incoming == if e.None? then "" else old(incoming)[e.value..]
    {
      hide FindEnd, EndAt;
      ghost var s := incoming;
      var raw := "";
      while |raw| < 4 || raw[|raw| - 4..] != BLANK
        invariant raw + incoming == s && FindEnd(s, 0) == FindEnd(s, |raw|)
        decreases |incoming|
      {
        SoFar(s, raw);
        FindEndStep(s, |raw|);
        var c := RecvAll(1);
        if c.None? {
          return None;
        }
        raw := raw + c.value;
      }
      SoFar(s, raw);
      FindEndStep(s, |raw|);
      Cut(raw, incoming);
      return Some(raw[..|raw| - 4]);
    }

    /** The head, then its lines, then as many characters as Content-Length says. */
    method HttpRecv() returns (msg: Received)
      modifies this
      ensures msg == Receive(old(incoming)).0 && incoming == Receive(old(incoming)).1
    {
      hide FindEnd, Lines, AddHeaders, Stoul;
      var head := RecvHead();
      if head.None? {
        return Closed;
      }
      var startLine, headers := ParseHead(head.value);
      var n := if LENGTH_KEY in headers then Stoul(headers[LENGTH_KEY]) else Some(0);
      if n.None? {
        return BadLength;
      }
      var m := n.value % U32_MOD;
      var body := RecvAll(m);
      if body.None? {
        return Closed;
      }
      return Message(startLine, headers, body.value + Zeros(n.value - m));
    }
  }

  /** One std::getline: the line, and the rest of the text. */
  method GetLine(text: string) returns (line: string, rest: string)
    requires text != ""
    ensures Lines(text) == [line] + Lines(rest) && |rest| < |text|
  {
    var i := Find(text, '\n');
    if i == |text| {
      return text, "";
    }
    return text[..i], text[i + 1..];
  }

  method ParseHead(head: string) returns (startLine: string, headers: Headers)
    ensures var lines := Lines(head);
            startLine == StartOf(lines) && headers == AddHeaders(map[], if lines == [] then [] else lines[1..])
  {
    startLine, headers := "", map[];
    if head == "" {
      return;
    }
    var rest;
    startLine, rest := GetLine(head);
    startLine := StripCr(startLine);
    ghost var lines := Lines(rest);
    while rest != ""
      invariant AddHeaders(headers, Lines(rest)) == AddHeaders(map[], lines)
      decreases |rest|
    {
      var line;
      line, rest := GetLine(rest);
      headers := AddHeader(headers, line);
    }
  }
}
