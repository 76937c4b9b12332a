/** An honest 5G registration, through the printed and parsed texts of every message. */
module Registration5GRun {
  import opened Common
  import opened Bits
  import opened Http
  import opened Json
  import opened Aka5G
  import opened Registration5G

  // ---------------------------------------------------------------- words

  lemma NameOk(k: Key)
    ensures KeyOk(Name(k))
  {
    hide Name, KeyOk;
    match k
    case MsgTypeKey => RegistrationNames(k);
    case RanIdKey => RegistrationNames(k);
    case SuciKey => RegistrationNames(k);
    case RegTypeKey => RegTypeName();
    case NssaiKey => NssaiName();
    case AuthTypeKey => VectorNames(k);
    case SupiKey => VectorNames(k);
    case RandKey => VectorNames(k);
    case AutnKey => VectorNames(k);
    case XresKey => VectorNames(k);
    case _ => OtherNames(k);
  }

  lemma RegistrationNames(k: Key)
    requires k in {MsgTypeKey, RanIdKey, SuciKey}
    ensures KeyOk(Name(k))
  {
  }

  lemma RegTypeName()
    ensures KeyOk(Name(RegTypeKey))
  {
  }

  lemma NssaiName()
    ensures KeyOk(Name(NssaiKey))
  {
  }

  lemma VectorNames(k: Key)
    requires k in {AuthTypeKey, SupiKey, RandKey, AutnKey, XresKey}
    ensures KeyOk(Name(k))
  {
  }

  lemma OtherNames(k: Key)
    requires k in {KausfKey, ResKey, GutiKey, AllowedKey, CauseKey}
    ensures KeyOk(Name(k))
  {
  }

  /** Names of keys that stand in one message differ in length or in their first letter. */
  lemma NameShape(k: Key)
    ensures |Name(k)| == match k
              case MsgTypeKey => 7 case RanIdKey => 11 case SuciKey => 4 case RegTypeKey => 16 case NssaiKey => 14
              case AuthTypeKey => 8 case SupiKey => 4 case RandKey => 4 case AutnKey => 4 case XresKey => 8
              case KausfKey => 5 case ResKey => 7 case GutiKey => 6 case AllowedKey => 12 case CauseKey => 5
    ensures k == AuthTypeKey ==> Name(k)[0] == 'a'
    ensures k == XresKey ==> Name(k)[0] == 'x'
    ensures k == SupiKey ==> Name(k)[0] == 's'
    ensures k == RandKey ==> Name(k)[0] == 'r'
    ensures k == AutnKey ==> Name(k)[0] == 'a'
    ensures k == MsgTypeKey ==> Name(k)[0] == 'm'
    ensures k == ResKey ==> Name(k)[0] == 'r'
  {
  }

  predicate NoQuote(s: string)
  {
    '"' !in s
  }

  lemma TypeOk(m: MsgType)
    ensures NoQuote(TypeName(m))
    ensures |TypeName(m)| == match m
              case RequestMsg => 19 case ChallengeMsg => 21 case ResponseMsg => 22
              case AcceptMsg => 18 case RejectMsg => 18 case CompleteMsg => 20
  {
  }

  lemma FlatStr(k: Key, s: string)
    requires NoQuote(s)
    ensures Flat((Name(k), Str(s))) && Unquote(Str(s)) == s
  {
    NameOk(k);
    hide Name;
    assert Str(s) == ['"'] + s + ['"'];
    assert Str(s)[1..|Str(s)| - 1] == s;
  }

  lemma FlatNumber(k: Key, n: nat)
    ensures Flat((Name(k), Decimal(n))) && Unquote(Decimal(n)) == Decimal(n)
  {
    NameOk(k);
    hide Name;
    DecimalPlain(n);
  }

  lemma HexNoQuote(s: string)
    requires AllHex(s)
    ensures NoQuote(s)
  {
  }

  lemma MsinDigits(ueId: nat)
    ensures AllDigits(Msin(ueId))
  {
    DecimalPlain(ueId);
  }

  lemma SuciNoQuote(p: Plmn, ueId: nat)
    requires PlmnOk(p)
    ensures NoQuote(Suci(p, ueId))
  {
    MsinDigits(ueId);
    assert NoQuote("suci-0-") && NoQuote("-") && NoQuote("-0000-0-0-");
    hide Msin;
  }

  lemma SupiNoQuote(p: Plmn, ueId: nat)
    requires PlmnOk(p)
    ensures NoQuote(SupiOf(p, Msin(ueId)))
  {
    MsinDigits(ueId);
    assert NoQuote("imsi-");
    hide Msin;
  }

  // ---------------------------------------------------------------- what each message reads as

  /** What the AMF reads from a Registration Request; of the quoted slice object only the brace
      before its first inner quote arrives. */
  lemma RequestReads(p: Plmn, ueId: nat, urllc: bool)
    requires PlmnOk(p)
    ensures var t := Obj(RequestFields(p, ueId, urllc));
            && Read(t, MsgTypeKey) == TypeName(RequestMsg) && Read(t, RanIdKey) == Decimal(ueId)
            && Read(t, SuciKey) == Suci(p, ueId) && Read(t, RegTypeKey) == "initial" && Read(t, NssaiKey) == "{"
  {
    hide Name, TypeName, Get, Obj, Flat, Unquote, Suci, KeyOk, Str, Nssai;
    TypeOk(RequestMsg);
    SuciNoQuote(p, ueId);
    assert NoQuote("initial");
    FlatStr(MsgTypeKey, TypeName(RequestMsg));
    FlatNumber(RanIdKey, ueId);
    FlatStr(SuciKey, Suci(p, ueId));
    FlatStr(RegTypeKey, "initial");
    NameShape(MsgTypeKey);
    NameShape(RanIdKey);
    NameShape(SuciKey);
    NameShape(RegTypeKey);
    NameShape(NssaiKey);
    var kv := RequestFields(p, ueId, urllc);
    GetField(kv, 0, Name(MsgTypeKey));
    GetField(kv, 1, Name(RanIdKey));
    GetField(kv, 2, Name(SuciKey));
    GetField(kv, 3, Name(RegTypeKey));
    SliceIsCut(kv, urllc);
  }

  lemma SliceIsCut(kv: seq<Field>, urllc: bool)
    requires |kv| == 5 && kv[4] == (Name(NssaiKey), Str(Nssai(urllc)))
    requires forall j :: 0 <= j < 4 ==> Flat(kv[j]) && kv[j].0 != Name(NssaiKey)
    ensures Read(Obj(kv), NssaiKey) == "{"
  {
    hide Name, Obj, Flat, KeyOk, SliceTail, Get;
    NameOk(NssaiKey);
    assert '"' !in "{";
    NestedIsCut(kv, 4, Name(NssaiKey), "{", SliceTail(urllc));
  }

  lemma VectorReads(p: Plmn, ueId: nat, rand: Bytes, autn: Bytes, kausf: Bytes)
    requires PlmnOk(p)
    ensures AllHex(KeyFor(Msin(ueId)))
    ensures var b := Obj(VectorFields(p, Suci(p, ueId), rand, autn, kausf));
            && Read(b, AuthTypeKey) == "5G_AKA" && Read(b, SupiKey) == "imsi-" + p.mcc + (p.mnc + Msin(ueId))
            && Read(b, KausfKey) == ToHex(kausf)
            && Read(b, RandKey) == ToHex(rand) && Read(b, AutnKey) == ToHex(autn)
            && Read(b, XresKey) == ByteXor(ToHex(rand), KeyFor(Msin(ueId)))
  {
    hide Name, Get, Obj, Flat, Unquote, Suci, KeyOk, Str, ToHex, ByteXor, KeyFor, SupiOf, Msin, MsinFromSuci;
    KeyHex(Msin(ueId));
    SuciResolves(p, ueId);
    SupiNoQuote(p, ueId);
    SupiParts(p, Msin(ueId));
    HexNoQuote(ToHex(kausf));
    FlatStr(KausfKey, ToHex(kausf));
    NameShape(KausfKey);
    var x := ByteXor(ToHex(rand), KeyFor(Msin(ueId)));
    HexNoQuote(ToHex(rand));
    HexNoQuote(ToHex(autn));
    HexNoQuote(x);
    assert NoQuote("5G_AKA");
    FlatStr(AuthTypeKey, "5G_AKA");
    FlatStr(SupiKey, SupiOf(p, Msin(ueId)));
    FlatStr(RandKey, ToHex(rand));
    FlatStr(AutnKey, ToHex(autn));
    FlatStr(XresKey, x);
    NameShape(AuthTypeKey);
    NameShape(SupiKey);
    NameShape(RandKey);
    NameShape(AutnKey);
    NameShape(XresKey);
    var kv := VectorFields(p, Suci(p, ueId), rand, autn, kausf);
    GetField(kv, 0, Name(AuthTypeKey));
    GetField(kv, 1, Name(SupiKey));
    GetField(kv, 2, Name(RandKey));
    GetField(kv, 3, Name(AutnKey));
    GetField(kv, 4, Name(XresKey));
    GetField(kv, 5, Name(KausfKey));
  }

  lemma ChallengeReads(ueId: nat, body: string)
    requires NoQuote(Read(body, RandKey)) && NoQuote(Read(body, AutnKey))
    ensures var t := Obj(ChallengeFields(ueId, body));
            && Read(t, MsgTypeKey) == TypeName(ChallengeMsg) && Read(t, RanIdKey) == Decimal(ueId)
            && Read(t, RandKey) == Read(body, RandKey) && Read(t, AutnKey) == Read(body, AutnKey)
  {
    hide Name, TypeName, Get, Obj, Flat, Unquote, KeyOk, Str;
    TypeOk(ChallengeMsg);
    FlatStr(MsgTypeKey, TypeName(ChallengeMsg));
    FlatNumber(RanIdKey, ueId);
    FlatStr(RandKey, Read(body, RandKey));
    FlatStr(AutnKey, Read(body, AutnKey));
    NameShape(MsgTypeKey);
    NameShape(RanIdKey);
    NameShape(RandKey);
    NameShape(AutnKey);
    var kv := ChallengeFields(ueId, body);
    GetField(kv, 0, Name(MsgTypeKey));
    GetField(kv, 1, Name(RanIdKey));
    GetField(kv, 2, Name(RandKey));
    GetField(kv, 3, Name(AutnKey));
  }

  lemma ResponseReads(ueId: nat, resStar: string)
    requires NoQuote(resStar)
    ensures var t := Obj(ResponseFields(ueId, resStar));
            && Read(t, MsgTypeKey) == TypeName(ResponseMsg) && Read(t, RanIdKey) == Decimal(ueId)
            && Read(t, ResKey) == resStar
  {
    hide Name, TypeName, Get, Obj, Flat, Unquote, KeyOk, Str;
    TypeOk(ResponseMsg);
    FlatStr(MsgTypeKey, TypeName(ResponseMsg));
    FlatNumber(RanIdKey, ueId);
    FlatStr(ResKey, resStar);
    NameShape(MsgTypeKey);
    NameShape(RanIdKey);
    NameShape(ResKey);
    var kv := ResponseFields(ueId, resStar);
    GetField(kv, 0, Name(MsgTypeKey));
    GetField(kv, 1, Name(RanIdKey));
    GetField(kv, 2, Name(ResKey));
  }

  lemma AcceptReads(p: Plmn, ueId: nat, c: UeContext)
    requires PlmnOk(p)
    ensures var t := Obj(AcceptFields(p, ueId, c));
            && Read(t, MsgTypeKey) == TypeName(AcceptMsg) && Read(t, RanIdKey) == Decimal(ueId)
            && Read(t, GutiKey) == "5g-guti-" + p.mcc + "-" + p.mnc + "-amf01-" + Padded(Decimal(ueId), 5)
            && (c.nssai == "{" ==> Read(t, AllowedKey) == "[{]")
  {
    hide Name, TypeName, Get, Obj, Flat, Unquote, KeyOk, Str, Padded;
    TypeOk(AcceptMsg);
    DecimalPlain(ueId);
    assert NoQuote("5g-guti-") && NoQuote("-") && NoQuote("-amf01-");
    FlatStr(MsgTypeKey, TypeName(AcceptMsg));
    FlatNumber(RanIdKey, ueId);
    FlatStr(GutiKey, Guti(p, ueId));
    NameShape(MsgTypeKey);
    NameShape(RanIdKey);
    NameShape(GutiKey);
    GetField(AcceptFields(p, ueId, c), 0, Name(MsgTypeKey));
    GetField(AcceptFields(p, ueId, c), 1, Name(RanIdKey));
    GetField(AcceptFields(p, ueId, c), 2, Name(GutiKey));
    if c.nssai == "{" {
      SliceEchoed(p, ueId, c);
    }
  }

  /** The slice as it arrived goes back in brackets. */
  lemma SliceEchoed(p: Plmn, ueId: nat, c: UeContext)
    requires c.nssai == "{" && Flat((Name(MsgTypeKey), Str(TypeName(AcceptMsg)))) && Flat((Name(RanIdKey), Decimal(ueId)))
    requires Flat((Name(GutiKey), Str(Guti(p, ueId))))
    ensures Read(Obj(AcceptFields(p, ueId, c)), AllowedKey) == "[{]"
  {
    hide Name, TypeName, Get, Obj, KeyOk, Str, Guti, Quoted, Bare, Unquote, Decimal;
    NameOk(AllowedKey);
    NameShape(MsgTypeKey);
    NameShape(RanIdKey);
    NameShape(GutiKey);
    NameShape(AllowedKey);
    LoneBrace();
    var kv := AcceptFields(p, ueId, c);
    assert kv[3] == (Name(AllowedKey), "[{]");
    GetField(kv, 3, Name(AllowedKey));
  }

  lemma LoneBrace()
    ensures "[" + "{" + "]" == "[{]" && Bare("[{]") && Unquote("[{]") == "[{]"
  {
  }

  lemma RejectReads(id: string, cause: string)
    requires Flat((Name(RanIdKey), id)) && NoQuote(cause)
    ensures var t := Obj([(Name(MsgTypeKey), Str(TypeName(RejectMsg))), (Name(RanIdKey), id), (Name(CauseKey), Str(cause))]);
            && Read(t, MsgTypeKey) == TypeName(RejectMsg) && Read(t, RanIdKey) == Unquote(id)
            && Read(t, CauseKey) == cause
  {
    hide Name, TypeName, Get, Obj, Flat, Unquote, KeyOk, Str;
    TypeOk(RejectMsg);
    FlatStr(MsgTypeKey, TypeName(RejectMsg));
    FlatStr(CauseKey, cause);
    NameShape(MsgTypeKey);
    NameShape(RanIdKey);
    NameShape(CauseKey);
    var kv := [(Name(MsgTypeKey), Str(TypeName(RejectMsg))), (Name(RanIdKey), id), (Name(CauseKey), Str(cause))];
    GetField(kv, 0, Name(MsgTypeKey));
    GetField(kv, 1, Name(RanIdKey));
    GetField(kv, 2, Name(CauseKey));
  }

  // ---------------------------------------------------------------- the UDM finds the SUCI

  predicate NoSpace(s: string)
  {
    forall c :: c in s ==> !IsSpace(c)
  }

  lemma {:induction false} WordEnds(w: string, cur: string, rest: string)
    requires NoSpace(w) && cur + w != ""
    ensures WordsFrom(w + [' '] + rest, cur) == [cur + w] + WordsFrom(rest, "")
    ensures WordsFrom(w, cur) == [cur + w]
    decreases |w|
  {
    if w == "" {
      assert w + [' '] + rest == [' '] + rest && cur + w == cur;
    } else {
      assert w[0] in w;
      assert (w + [' '] + rest)[1..] == w[1..] + [' '] + rest && cur + w == cur + [w[0]] + w[1..];
      WordEnds(w[1..], cur + [w[0]], rest);
    }
  }

  lemma ThreeWords(a: string, b: string, c: string)
    requires NoSpace(a) && NoSpace(b) && NoSpace(c) && a != "" && b != "" && c != ""
    ensures Words(a + " " + b + " " + c) == [a, b, c]
  {
    assert a + " " + b + " " + c == a + [' '] + (b + [' '] + c);
    WordEnds(a, "", b + [' '] + c);
    WordEnds(b, "", c);
    WordEnds(c, "", "");
    assert "" + a == a && "" + b == b && "" + c == c;
  }

  lemma {:induction false} SegmentEnds(w: string, cur: string, rest: string)
    requires '/' !in w && cur + w != ""
    ensures Segments(w + ['/'] + rest, cur) == [cur + w] + Segments(rest, "")
    decreases |w|
  {
    if w == "" {
      assert w + ['/'] + rest == ['/'] + rest && cur + w == cur;
    } else {
      assert w[0] in w;
      assert (w + ['/'] + rest)[1..] == w[1..] + ['/'] + rest && cur + w == cur + [w[0]] + w[1..];
      SegmentEnds(w[1..], cur + [w[0]], rest);
    }
  }

  lemma ThirdOf(a: string, b: string, c: string, tail: string)
    requires '/' !in a && '/' !in b && '/' !in c && a != "" && b != "" && c != ""
    ensures var path := ['/'] + a + ['/'] + b + ['/'] + c + ['/'] + tail;
            |Segments(path, "")| > 2 && Segments(path, "")[2] == c
  {
    var path := ['/'] + a + ['/'] + b + ['/'] + c + ['/'] + tail;
    assert path[1..] == a + ['/'] + (b + ['/'] + (c + ['/'] + tail));
    SegmentEnds(a, "", b + ['/'] + (c + ['/'] + tail));
    SegmentEnds(b, "", c + ['/'] + tail);
    SegmentEnds(c, "", tail);
    assert "" + a == a && "" + b == b && "" + c == c;
  }

  const TAIL := "security-information/generate-auth-data"

  lemma AuthDataParts()
    ensures AUTH_DATA == ['/'] + TAIL
  {
    assert AUTH_DATA[1..] == TAIL;
  }

  lemma PathFront()
    ensures "/nudm-ueau/v2/" == ['/'] + "nudm-ueau" + ['/'] + "v2" + ['/']
    ensures '/' !in "nudm-ueau" && '/' !in "v2"
  {
  }

  lemma Regroup(front: string, suci: string, tail: string)
    ensures front + suci + (['/'] + tail) == front + suci + ['/'] + tail
  {
  }

  lemma PathParts(suci: string)
    ensures AuthPath(suci) == ['/'] + "nudm-ueau" + ['/'] + "v2" + ['/'] + suci + ['/'] + TAIL
  {
    AuthDataParts();
    PathFront();
    Regroup("/nudm-ueau/v2/", suci, TAIL);
  }

  lemma ThirdSegment(suci: string)
    requires '/' !in suci && suci != ""
    ensures |Segments(AuthPath(suci), "")| > 2 && Segments(AuthPath(suci), "")[2] == suci
  {
    PathParts(suci);
    PathFront();
    ThirdOf("nudm-ueau", "v2", suci, TAIL);
  }

  lemma {:induction false} FoundAt(text: string, needle: string, p: nat, q: nat)
    requires p <= q && MatchAt(text, needle, q)
    ensures IndexOf(text, needle, p).Some?
    decreases q - p
  {
    if p < q && !MatchAt(text, needle, p) {
      FoundAt(text, needle, p + 1, q);
    }
  }

  lemma SuciPlain(p: Plmn, ueId: nat)
    requires PlmnOk(p)
    ensures NoSpace(Suci(p, ueId)) && '/' !in Suci(p, ueId) && Suci(p, ueId) != ""
  {
    MsinDigits(ueId);
    assert NoSpace("suci-0-") && NoSpace("-") && NoSpace("-0000-0-0-");
    assert '/' !in "suci-0-" && '/' !in "-" && '/' !in "-0000-0-0-";
    hide Msin;
  }

  lemma SpaceFree(s: string)
    requires NoSpace(s)
    ensures NoCrLf(s)
  {
  }

  lemma PathPlain(suci: string)
    requires NoSpace(suci)
    ensures NoSpace(AuthPath(suci)) && AuthPath(suci) != ""
  {
    assert NoSpace("/nudm-ueau/v2/") && NoSpace(AUTH_DATA);
  }

  lemma LinePlain(path: string)
    requires NoSpace(path)
    ensures NoCrLf("POST" + " " + path + " " + "HTTP/1.1") && NoSpace("POST") && NoSpace("HTTP/1.1")
  {
    SpaceFree(path);
    assert NoCrLf("POST") && NoCrLf(" ") && NoCrLf("HTTP/1.1");
  }

  /** The UDM answers the AMF's request with a vector for the SUCI that the gNB sent. */
  lemma UdmResolves(p: Plmn, ueId: nat, text: string, rand: Bytes, autn: Bytes, kausf: Bytes)
    requires PlmnOk(p) && Read(text, SuciKey) == Suci(p, ueId)
    ensures UdmServe(p, VectorRequest(text), rand, autn, kausf)
            == AuthVector(Obj(VectorFields(p, Suci(p, ueId), rand, autn, kausf)))
    ensures NoCrLf(VectorRequest(text))
  {
    hide Suci, Segments, Words, Obj, VectorFields, IndexOf, Get, Read;
    SuciPlain(p, ueId);
    var path := AuthPath(Suci(p, ueId));
    PathPlain(Suci(p, ueId));
    LinePlain(path);
    ThreeWords("POST", path, "HTTP/1.1");
    ThirdSegment(Suci(p, ueId));
    assert path[|path| - |AUTH_DATA|..] == AUTH_DATA;
    FoundAt(path, AUTH_DATA, 0, |path| - |AUTH_DATA|);
  }

  // ---------------------------------------------------------------- lengths

  lemma {:induction false} FieldsLength(kv: seq<Field>, bound: nat)
    requires kv != [] && forall i :: 0 <= i < |kv| ==> |Entry(kv[i])| <= bound
    ensures |Fields(kv)| <= |kv| * (bound + 1)
  {
    if |kv| > 1 {
      FieldsLength(kv[1..], bound);
    }
  }

  lemma {:induction false} AfterShorter(s: string)
    ensures |AfterLastHyphen(s)| <= |s|
  {
    if s != "" && s[|s| - 1] != '-' {
      AfterShorter(s[..|s| - 1]);
    }
  }

  lemma XorLength(rand: Bytes, key: string)
    requires AllHex(key) && |key| >= 2
    ensures |ByteXor(ToHex(rand), key)| == 2 * |rand|
  {
    HexRoundTrip(rand);
  }

  /** The UDM's body is far below the 2^32 bytes that a receiver can take. */
  lemma VectorLength(p: Plmn, suci: string, rand: Bytes, autn: Bytes, kausf: Bytes)
    requires |p.mcc| <= 3 && |p.mnc| <= 3 && |suci| <= 1000 && |rand| <= 64 && |autn| <= 64 && |kausf| <= 64
    ensures |Obj(VectorFields(p, suci, rand, autn, kausf))| < U32_MOD
  {
    hide ToHex, KeyFor, Fields, AfterLastHyphen, ByteXor, Name;
    var msin := MsinFromSuci(suci);
    AfterShorter(suci);
    KeyHex(msin);
    XorLength(rand, KeyFor(msin));
    assert |SupiOf(p, msin)| == 5 + |p.mcc| + |p.mnc| + |msin|;
    var kv := VectorFields(p, suci, rand, autn, kausf);
    NameShape(AuthTypeKey);
    NameShape(SupiKey);
    NameShape(RandKey);
    NameShape(AutnKey);
    NameShape(XresKey);
    NameShape(KausfKey);
    FieldsLength(kv, 2000);
  }

  lemma SuciLength(p: Plmn, ueId: nat)
    requires |p.mcc| <= 3 && |p.mnc| <= 3 && ueId < 0x8000_0000
    ensures |Suci(p, ueId)| <= 1000
  {
    hide Msin;
    MsinReads(ueId);
  }

  // ---------------------------------------------------------------- the run

  const OK_LINE := "HTTP/1.1 200 OK"

  lemma OkLine()
    ensures NoCrLf(OK_LINE) && NoCrLf("")
  {
  }

  /** From the gNB's request to the AMF's challenge, by way of the UDM over HTTP. */
  lemma RunToChallenge(p: Plmn, ueId: nat, urllc: bool, rand: Bytes, autn: Bytes, kausf: Bytes,
                       reqBody: string, host: string)
    requires PlmnOk(p) && |p.mcc| <= 3 && |p.mnc| <= 3 && ueId < 0x8000_0000
    requires |rand| == 16 && |autn| == 16 && |kausf| == 32
    requires NoCrLf(host) && |reqBody| < U32_MOD
    ensures var text := Obj(RequestFields(p, ueId, urllc));
            var (req, _) := Receive(Build(VectorRequest(text), reqBody, host));
            && req.Message? && UdmServe(p, req.startLine, rand, autn, kausf).AuthVector?
            && var (resp, _) := Receive(Build(OK_LINE, UdmServe(p, req.startLine, rand, autn, kausf).body, ""));
               && resp.Message?
               && resp.body == Obj(VectorFields(p, Suci(p, ueId), rand, autn, kausf))
  {
    hide Receive, Build, Obj, UdmServe, VectorRequest, Suci, RequestFields, VectorFields, NoCrLf, Read, Get;
    var text := Obj(RequestFields(p, ueId, urllc));
    var body := Obj(VectorFields(p, Suci(p, ueId), rand, autn, kausf));
    RequestReads(p, ueId, urllc);
    UdmResolves(p, ueId, text, rand, autn, kausf);
    BuildReceive(VectorRequest(text), reqBody, host, "");
    assert Build(VectorRequest(text), reqBody, host) + "" == Build(VectorRequest(text), reqBody, host);
    SuciLength(p, ueId);
    VectorLength(p, Suci(p, ueId), rand, autn, kausf);
    OkLine();
    BuildReceive(OK_LINE, body, "", "");
    assert Build(OK_LINE, body, "") + "" == Build(OK_LINE, body, "");
  }

  /** The AMF's challenge: the vector's RAND and AUTN, its XRES* and identities in the context. */
  lemma Challenges(p: Plmn, ctx: Contexts, ueId: nat, urllc: bool, rand: Bytes, autn: Bytes, kausf: Bytes)
    requires PlmnOk(p) && ueId < 0x8000_0000
    ensures AllHex(KeyFor(Msin(ueId)))
    ensures var text := Obj(RequestFields(p, ueId, urllc));
            var body := Obj(VectorFields(p, Suci(p, ueId), rand, autn, kausf));
            var first := AmfStep(p, ctx, N2Event(text, false, body));
            && first.Went? && first.out.Some? && first.out.value.kind == AuthRequest
            && var t := first.out.value.text;
               && Read(t, MsgTypeKey) == TypeName(ChallengeMsg) && Read(t, RanIdKey) == Decimal(ueId)
               && Read(t, RandKey) == ToHex(rand) && Read(t, AutnKey) == ToHex(autn)
               && first.ctx == ctx[(ueId as int) := UeContext(Suci(p, ueId), "imsi-" + p.mcc + (p.mnc + Msin(ueId)),
                                                    ByteXor(ToHex(rand), KeyFor(Msin(ueId))), "{")]
  {
    hide Obj, Suci, RequestFields, VectorFields, Read, Get, TypeName, Stoi, ByteXor, KeyFor, ToHex, Msin, Name,
         ChallengeFields, SupiOf;
    var text := Obj(RequestFields(p, ueId, urllc));
    var body := Obj(VectorFields(p, Suci(p, ueId), rand, autn, kausf));
    RequestReads(p, ueId, urllc);
    VectorReads(p, ueId, rand, autn, kausf);
    StoiDecimal(ueId);
    HexNoQuote(ToHex(rand));
    HexNoQuote(ToHex(autn));
    ChallengeReads(ueId, body);
    var first := AmfStep(p, ctx, N2Event(text, false, body));
    assert first.out == Some(N2Out(AuthRequest, Obj(ChallengeFields(ueId, body))));
  }

  /** Judges an answer that carries this RES*, given the context of the UE. */
  lemma Judges(p: Plmn, ctx: Contexts, ueId: nat, res: string)
    requires PlmnOk(p) && ueId < 0x8000_0000 && (ueId as int) in ctx && AllHex(res)
    ensures var second := AmfStep(p, ctx, N2Event(Obj(ResponseFields(ueId, res)), false, ""));
            && second.Went? && second.ctx == ctx && second.out.Some?
            && var t := second.out.value.text;
               && Read(t, RanIdKey) == Decimal(ueId)
               && if res == ctx[ueId].xresStar then
                    && second.out.value.kind == Accept && Read(t, MsgTypeKey) == TypeName(AcceptMsg)
                    && Read(t, GutiKey) == "5g-guti-" + p.mcc + "-" + p.mnc + "-amf01-" + Padded(Decimal(ueId), 5)
                  else
                    && second.out.value.kind == Reject && Read(t, MsgTypeKey) == TypeName(RejectMsg)
                    && Read(t, CauseKey) == "authentication-failure"
  {
    hide Obj, Read, Get, TypeName, Stoi, Name, ResponseFields, AcceptFields, Padded, Flat, KeyOk, Decimal;
    StoiDecimal(ueId);
    HexNoQuote(res);
    ResponseReads(ueId, res);
    TypeOk(RequestMsg);
    TypeOk(ResponseMsg);
    AcceptReads(p, ueId, ctx[ueId]);
    FlatNumber(RanIdKey, ueId);
    assert NoQuote("authentication-failure");
    RejectReads(Decimal(ueId), "authentication-failure");
  }

  /** The AMF's two steps and the gNB's one, given the UDM's body: with whatever key the challenge
      is answered, the UE is accepted if and only if that key agrees with the UE's own in every
      byte that a challenge of this length uses, and rejected otherwise. */
  lemma KeyIsNeeded(p: Plmn, ctx: Contexts, ueId: nat, urllc: bool, rand: Bytes, autn: Bytes, kausf: Bytes,
                    key: string)
    requires PlmnOk(p) && ueId < 0x8000_0000 && AllHex(key) && |key| >= 2
    ensures AllHex(KeyFor(Msin(ueId)))
    ensures var text := Obj(RequestFields(p, ueId, urllc));
            var body := Obj(VectorFields(p, Suci(p, ueId), rand, autn, kausf));
            var first := AmfStep(p, ctx, N2Event(text, false, body));
            && first.Went? && first.out.Some? && first.out.value.kind == AuthRequest
            && var answer := AnswerWith(ueId, first.out.value.text, key);
               && answer.Some?
               && var second := AmfStep(p, first.ctx, N2Event(answer.value, false, ""));
                  && second.Went? && second.out.Some?
                  && var t := second.out.value.text;
                     if SameUsed(|rand|, FromHex(key), FromHex(KeyFor(Msin(ueId)))) then
                       && second.out.value.kind == Accept && Read(t, MsgTypeKey) == TypeName(AcceptMsg)
                     else
                       && second.out.value.kind == Reject && Read(t, MsgTypeKey) == TypeName(RejectMsg)
                       && Read(t, CauseKey) == "authentication-failure"
  {
    hide Obj, Suci, RequestFields, VectorFields, Read, Get, TypeName, ByteXor, KeyFor, ToHex, Msin, Name, AmfStep,
         ResponseFields, SameUsed, FromHex, Padded;
    var text := Obj(RequestFields(p, ueId, urllc));
    var body := Obj(VectorFields(p, Suci(p, ueId), rand, autn, kausf));
    Challenges(p, ctx, ueId, urllc, rand, autn, kausf);
    var first := AmfStep(p, ctx, N2Event(text, false, body));
    var res := ByteXor(ToHex(rand), key);
    assert AnswerWith(ueId, first.out.value.text, key) == Some(Obj(ResponseFields(ueId, res)));
    Judges(p, first.ctx, ueId, res);
    AnswerDecides(rand, key, KeyFor(Msin(ueId)));
  }

  /** The whole registration, through HTTP and the printed texts, answered with whatever key. */
  lemma RegistrationByKey(p: Plmn, ctx: Contexts, ueId: nat, urllc: bool, rand: Bytes, autn: Bytes, kausf: Bytes,
                          reqBody: string, host: string, key: string)
    requires PlmnOk(p) && |p.mcc| <= 3 && |p.mnc| <= 3 && ueId < 0x8000_0000
    requires |rand| == 16 && |autn| == 16 && |kausf| == 32
    requires NoCrLf(host) && |reqBody| < U32_MOD && AllHex(key) && |key| >= 2
    ensures AllHex(KeyFor(Msin(ueId)))
    ensures var text := Obj(RequestFields(p, ueId, urllc));
            var (req, _) := Receive(Build(VectorRequest(text), reqBody, host));
            && req.Message? && UdmServe(p, req.startLine, rand, autn, kausf).AuthVector?
            && var (resp, _) := Receive(Build(OK_LINE, UdmServe(p, req.startLine, rand, autn, kausf).body, ""));
               && resp.Message?
               && var first := AmfStep(p, ctx, N2Event(text, false, resp.body));
                  && first.Went? && first.out.Some?
                  && var answer := AnswerWith(ueId, first.out.value.text, key);
                     && answer.Some?
                     && var second := AmfStep(p, first.ctx, N2Event(answer.value, false, ""));
                        && second.Went? && second.out.Some?
                        && Read(second.out.value.text, MsgTypeKey) ==
                           if SameUsed(16, FromHex(key), FromHex(KeyFor(Msin(ueId)))) then TypeName(AcceptMsg)
                           else TypeName(RejectMsg)
  {
    hide Receive, Build, Obj, UdmServe, VectorRequest, Suci, RequestFields, VectorFields, NoCrLf, Read, Get, AmfStep,
         AnswerWith, TypeName, Name, SameUsed, FromHex, KeyFor, Msin;
    RunToChallenge(p, ueId, urllc, rand, autn, kausf, reqBody, host);
    KeyIsNeeded(p, ctx, ueId, urllc, rand, autn, kausf, key);
  }

  /** For every UE number, slice, random challenge and AMF state, an honest registration in which
      no chaos drop fires ends in a Registration Accept. */
  lemma HonestRegistration(p: Plmn, ctx: Contexts, ueId: nat, urllc: bool, rand: Bytes, autn: Bytes, kausf: Bytes,
                           reqBody: string, host: string)
    requires PlmnOk(p) && |p.mcc| <= 3 && |p.mnc| <= 3 && ueId < 0x8000_0000
    requires |rand| == 16 && |autn| == 16 && |kausf| == 32
    requires NoCrLf(host) && |reqBody| < U32_MOD
    ensures var text := Obj(RequestFields(p, ueId, urllc));
            var (req, _) := Receive(Build(VectorRequest(text), reqBody, host));
            && req.Message? && UdmServe(p, req.startLine, rand, autn, kausf).AuthVector?
            && var (resp, _) := Receive(Build(OK_LINE, UdmServe(p, req.startLine, rand, autn, kausf).body, ""));
               && resp.Message?
               && var first := AmfStep(p, ctx, N2Event(text, false, resp.body));
                  && first.Went? && first.out.Some?
                  && var answer := AnswerChallenge(ueId, first.out.value.text);
                     && answer.Some?
                     && var second := AmfStep(p, first.ctx, N2Event(answer.value, false, ""));
                        && second.Went? && second.out.Some?
                        && Read(second.out.value.text, MsgTypeKey) == TypeName(AcceptMsg)
  {
    hide Receive, Build, Obj, UdmServe, VectorRequest, Suci, RequestFields, VectorFields, NoCrLf, Read, Get, AmfStep,
         AnswerWith, TypeName, Name, FromHex, KeyFor, Msin;
    KeyHex(Msin(ueId));
    RegistrationByKey(p, ctx, ueId, urllc, rand, autn, kausf, reqBody, host, KeyFor(Msin(ueId)));
  }

  /** A chaos drop rejects the request, whatever the UDM would have answered: identifier "0", no
      context changed. */
  lemma ChaosRejects(p: Plmn, ctx: Contexts, ueId: nat, urllc: bool, body: string)
    requires PlmnOk(p) && ueId < 0x8000_0000
    ensures var r := AmfStep(p, ctx, N2Event(Obj(RequestFields(p, ueId, urllc)), true, body));
            && r.Went? && r.ctx == ctx && r.out.Some? && r.out.value.kind == Reject
            && var t := r.out.value.text;
               && Read(t, MsgTypeKey) == TypeName(RejectMsg) && Read(t, RanIdKey) == "0"
               && Read(t, CauseKey) == "chaos-udm-drop"
  {
    hide Obj, Suci, RequestFields, Read, Get, TypeName, Stoi, Name, Flat, KeyOk, Unquote, Str;
    RequestReads(p, ueId, urllc);
    StoiDecimal(ueId);
    assert NoQuote("0") && NoQuote("chaos-udm-drop");
    FlatStr(RanIdKey, "0");
    RejectReads(Str("0"), "chaos-udm-drop");
  }
}
