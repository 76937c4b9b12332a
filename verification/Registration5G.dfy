/** 5G registration: the messages of gNB, AMF and UDM as texts, an honest run through them, and
    what the AMF accepts in any order of messages. */
module Registration5G {
  import opened Common
  import opened Http
  import opened Json
  import opened Aka5G

  // ---------------------------------------------------------------- numbers in messages

  /** std::stoi: None where it throws. */
  function Stoi(s: string): Option<int>
  {
    if s != "" && IsSpace(s[0]) then Stoi(s[1..])
    else
      var t := if s != "" && (s[0] == '+' || s[0] == '-') then s[1..] else s;
      if t == "" || !IsDigit(t[0]) then None
      else
        var v: int := LeadingValue(t, 0);
        var w := if s[0] == '-' then -v else v;
        if -0x8000_0000 <= w < 0x8000_0000 then Some(w) else None
  }

  lemma StoiDecimal(n: nat)
    requires n < 0x8000_0000
    ensures Stoi(Decimal(n)) == Some(n)
  {
    DecimalValue(n, "");
    assert Decimal(n) + "" == Decimal(n);
  }

  // ---------------------------------------------------------------- words of the messages

  datatype Key =
    | MsgTypeKey | RanIdKey | SuciKey | RegTypeKey | NssaiKey
    | AuthTypeKey | SupiKey | RandKey | AutnKey | XresKey | KausfKey
    | ResKey | GutiKey | AllowedKey | CauseKey

  function Name(k: Key): string
  {
    match k
    case MsgTypeKey => "msgType"
    case RanIdKey => "ranUeNgapId"
    case SuciKey => "suci"
    case RegTypeKey => "registrationType"
    case NssaiKey => "requestedNssai"
    case AuthTypeKey => "authType"
    case SupiKey => "supi"
    case RandKey => "rand"
    case AutnKey => "autn"
    case XresKey => "xresStar"
    case KausfKey => "kausf"
    case ResKey => "resStar"
    case GutiKey => "5gGuti"
    case AllowedKey => "allowedNssai"
    case CauseKey => "cause"
  }

  datatype MsgType = RequestMsg | ChallengeMsg | ResponseMsg | AcceptMsg | RejectMsg | CompleteMsg

  function TypeName(m: MsgType): string
  {
    match m
    case RequestMsg => "RegistrationRequest"
    case ChallengeMsg => "AuthenticationRequest"
    case ResponseMsg => "AuthenticationResponse"
    case AcceptMsg => "RegistrationAccept"
    case RejectMsg => "RegistrationReject"
    case CompleteMsg => "RegistrationComplete"
  }

  function Read(text: string, k: Key): string
  {
    Get(text, Name(k))
  }

  // ---------------------------------------------------------------- gNB

  /** What follows the first inner quote of the slice object. */
  function SliceTail(urllc: bool): string
  {
    if urllc then "sst\":2,\"sd\":\"000002\"}" else "sst\":1,\"sd\":\"000001\"}"
  }

  function Nssai(urllc: bool): string
  {
    "{" + "\"" + SliceTail(urllc)
  }

  function RequestFields(p: Plmn, ueId: nat, urllc: bool): seq<Field>
  {
    [(Name(MsgTypeKey), Str(TypeName(RequestMsg))), (Name(RanIdKey), Decimal(ueId)), (Name(SuciKey), Str(Suci(p, ueId))),
     (Name(RegTypeKey), Str("initial")), (Name(NssaiKey), Str(Nssai(urllc)))]
  }

  /** What a gNB holding this key answers to an Authentication Request; None if it is something
      else, or where decoding the challenge throws. */
  function AnswerWith(ueId: nat, text: string, key: string): Option<string>
    requires AllHex(key) && |key| >= 2
  {
    if Read(text, MsgTypeKey) != TypeName(ChallengeMsg) || !AllHex(Read(text, RandKey)) then None
    else Some(Obj(ResponseFields(ueId, ByteXor(Read(text, RandKey), key))))
  }

  /** What the gNB answers: with the UE's own key. */
  function AnswerChallenge(ueId: nat, text: string): Option<string>
  {
    KeyHex(Msin(ueId));
    AnswerWith(ueId, text, KeyFor(Msin(ueId)))
  }

  function ResponseFields(ueId: nat, resStar: string): seq<Field>
  {
    [(Name(MsgTypeKey), Str(TypeName(ResponseMsg))), (Name(RanIdKey), Decimal(ueId)), (Name(ResKey), Str(resStar))]
  }

  // ---------------------------------------------------------------- UDM

  /** The words of a text, separated by white space. */
  function Words(s: string): seq<string>
  {
    WordsFrom(s, "")
  }

  function WordsFrom(s: string, cur: string): seq<string>
  {
    if s == "" then if cur == "" then [] else [cur]
    else if IsSpace(s[0]) then (if cur == "" then [] else [cur]) + WordsFrom(s[1..], "")
    else WordsFrom(s[1..], cur + [s[0]])
  }

  /** The segments of a path; empty ones are dropped. */
  function Segments(path: string, cur: string): seq<string>
  {
    if path == "" then if cur == "" then [] else [cur]
    else if path[0] == '/' then (if cur == "" then [] else [cur]) + Segments(path[1..], "")
    else Segments(path[1..], cur + [path[0]])
  }

  method SplitPath(path: string) returns (parts: seq<string>)
    ensures parts == Segments(path, "")
  {
    parts := [];
    var cur := "";
    for i := 0 to |path|
      invariant parts + Segments(path[i..], cur) == Segments(path, "")
    {
      assert path[i..][1..] == path[i + 1..];
      if path[i] == '/' {
        if cur != "" { parts := parts + [cur]; }
        cur := "";
      } else {
        cur := cur + [path[i]];
      }
    }
    if cur != "" { parts := parts + [cur]; }
  }

  const AUTH_DATA := "/security-information/generate-auth-data"

  function VectorFields(p: Plmn, suci: string, rand: Bytes, autn: Bytes, kausf: Bytes): seq<Field>
  {
    var msin := MsinFromSuci(suci);
    KeyHex(msin);
    [(Name(AuthTypeKey), Str("5G_AKA")), (Name(SupiKey), Str(SupiOf(p, msin))), (Name(RandKey), Str(ToHex(rand))),
     (Name(AutnKey), Str(ToHex(autn))), (Name(XresKey), Str(ByteXor(ToHex(rand), KeyFor(msin)))),
     (Name(KausfKey), Str(ToHex(kausf)))]
  }

  datatype UdmAnswer = AuthVector(body: string) | OtherAnswer

  /** The UDM's dispatch on a request's start line; the random draws are parameters. */
  function UdmServe(p: Plmn, startLine: string, rand: Bytes, autn: Bytes, kausf: Bytes): UdmAnswer
  {
    var words := Words(startLine);
    var path := if |words| > 1 then words[1] else "";
    var parts := Segments(path, "");
    var id := if |parts| > 2 then parts[2] else "";
    if IndexOf(path, AUTH_DATA, 0).Some? then AuthVector(Obj(VectorFields(p, id, rand, autn, kausf))) else OtherAnswer
  }

  // ---------------------------------------------------------------- AMF

  datatype UeContext = UeContext(suci: string, supi: string, xresStar: string, nssai: string)

  type Contexts = map<int, UeContext>

  datatype Kind = AuthRequest | Accept | Reject

  datatype N2Out = N2Out(kind: Kind, text: string)

  /** Contexts after a message and what was sent; Thrown where stoi throws, which ends the AMF. */
  datatype AmfResult = Went(ctx: Contexts, out: Option<N2Out>) | Thrown

  function AuthPath(suci: string): string
  {
    "/nudm-ueau/v2/" + suci + AUTH_DATA
  }

  /** The start line of the AMF's request for vectors. */
  function VectorRequest(text: string): string
  {
    "POST" + " " + AuthPath(Read(text, SuciKey)) + " " + "HTTP/1.1"
  }

  function ChallengeFields(ueId: int, body: string): seq<Field>
  {
    [(Name(MsgTypeKey), Str(TypeName(ChallengeMsg))), (Name(RanIdKey), Number(ueId)),
     (Name(RandKey), Str(Read(body, RandKey))),
     (Name(AutnKey), Str(Read(body, AutnKey)))]
  }

  function Number(n: int): string
  {
    if n < 0 then "-" + Decimal(-n) else Decimal(n)
  }

  /** body: that of the UDM's answer. */
  function OnRequest(ctx: Contexts, text: string, drop: bool, body: string): AmfResult
  {
    match Stoi(Read(text, RanIdKey))
    case None => Thrown
    case Some(id) =>
      if drop then
        Went(ctx, Some(N2Out(Reject, Obj([(Name(MsgTypeKey), Str(TypeName(RejectMsg))), (Name(RanIdKey), Str("0")),
                                          (Name(CauseKey), Str("chaos-udm-drop"))]))))
      else
        var c := UeContext(Read(text, SuciKey), Read(body, SupiKey), Read(body, XresKey), Read(text, NssaiKey));
        Went(ctx[id := c], Some(N2Out(AuthRequest, Obj(ChallengeFields(id, body)))))
  }

  function Guti(p: Plmn, id: int): string
  {
    "5g-guti-" + p.mcc + "-" + p.mnc + "-amf01-" + Padded(Number(id), 5)
  }

  function AcceptFields(p: Plmn, id: int, c: UeContext): seq<Field>
  {
    [(Name(MsgTypeKey), Str(TypeName(AcceptMsg))), (Name(RanIdKey), Number(id)), (Name(GutiKey), Str(Guti(p, id))),
     (Name(AllowedKey), if c.nssai == "" then "[{\"sst\":1,\"sd\":\"000001\"}]" else "[" + c.nssai + "]")]
  }

  function OnResponse(p: Plmn, ctx: Contexts, text: string): AmfResult
  {
    match Stoi(Read(text, RanIdKey))
    case None => Thrown
    case Some(id) =>
      if id !in ctx then Went(ctx, None)
      else if Read(text, ResKey) != ctx[id].xresStar then
        Went(ctx, Some(N2Out(Reject, Obj([(Name(MsgTypeKey), Str(TypeName(RejectMsg))), (Name(RanIdKey), Number(id)),
                                          (Name(CauseKey), Str("authentication-failure"))]))))
      else Went(ctx, Some(N2Out(Accept, Obj(AcceptFields(p, id, ctx[id])))))
  }

  /** One message from the gNB, with the chaos roll and the UDM's answer should it be asked. */
  datatype N2Event = N2Event(text: string, drop: bool, body: string)

  /** Registration messages only; the others change no context. */
  function AmfStep(p: Plmn, ctx: Contexts, e: N2Event): AmfResult
  {
    var msgType := Read(e.text, MsgTypeKey);
    if msgType == TypeName(RequestMsg) then OnRequest(ctx, e.text, e.drop, e.body)
    else if msgType == TypeName(ResponseMsg) then OnResponse(p, ctx, e.text)
    else if msgType == TypeName(CompleteMsg) && Stoi(Read(e.text, RanIdKey)).None? then Thrown
    else Went(ctx, None)
  }

  /** When the AMF ends, when it answers, and when it keeps a context: an unreadable UE number ends
      it; a request is always answered, a response exactly if there is a context for its number,
      nothing else is; a context is stored exactly for a request that no chaos drop rejects. */
  lemma AmfAnswers(p: Plmn, ctx: Contexts, e: N2Event)
    ensures var r, t, id := AmfStep(p, ctx, e), Read(e.text, MsgTypeKey), Stoi(Read(e.text, RanIdKey));
            && (r.Thrown? <==> id.None? && t in {"RegistrationRequest", "AuthenticationResponse", "RegistrationComplete"})
            && (r.Went? ==>
                  && (r.out.Some? <==>
                        t == "RegistrationRequest" || (t == "AuthenticationResponse" && id.value in ctx))
                  && r.ctx.Keys == ctx.Keys + (if t == "RegistrationRequest" && !e.drop then {id.value} else {})
                  && forall j :: j in ctx && (t != "RegistrationRequest" || e.drop || j != id.value) ==> r.ctx[j] == ctx[j])
  {
    hide Read, Stoi, Obj, ChallengeFields, AcceptFields;
  }

  /** The AMF's context table as its handlers update it. */
  class Amf {
    const plmn: Plmn
    var ctx: Contexts

    constructor (p: Plmn)
      ensures plmn == p && ctx == map[]
    {
      plmn := p;
      ctx := map[];
    }

    method HandleRegistrationRequest(text: string, drop: bool, body: string) returns (result: AmfResult)
      modifies this
      ensures result == OnRequest(old(ctx), text, drop, body)
      ensures ctx == if result.Went? then result.ctx else old(ctx)
    {
      var ueId := Stoi(Read(text, RanIdKey));
      if ueId.None? {
        return Thrown;
      }
      var suci, nssai := Read(text, SuciKey), Read(text, NssaiKey);
      if drop {
        return Went(ctx, Some(N2Out(Reject, Obj([(Name(MsgTypeKey), Str(TypeName(RejectMsg))), (Name(RanIdKey), Str("0")),
                                                 (Name(CauseKey), Str("chaos-udm-drop"))]))));
      }
      var xresStar, supi := Read(body, XresKey), Read(body, SupiKey);
      ctx := ctx[ueId.value := UeContext(suci, supi, xresStar, nssai)];
      return Went(ctx, Some(N2Out(AuthRequest, Obj(ChallengeFields(ueId.value, body)))));
    }

    method HandleAuthResponse(text: string) returns (result: AmfResult)
      ensures result == OnResponse(plmn, ctx, text)
      ensures result.Went? && result.out.Some? && result.out.value.kind == Accept ==>
                var id := Stoi(Read(text, RanIdKey)).value;
                id in ctx && Read(text, ResKey) == ctx[id].xresStar
    {
      var ueId := Stoi(Read(text, RanIdKey));
      if ueId.None? {
        return Thrown;
      }
      var id, resStar := ueId.value, Read(text, ResKey);
      if id !in ctx {
        return Went(ctx, None);
      }
      if resStar != ctx[id].xresStar {
        return Went(ctx, Some(N2Out(Reject, Obj([(Name(MsgTypeKey), Str(TypeName(RejectMsg))), (Name(RanIdKey), Number(id)),
                                                 (Name(CauseKey), Str("authentication-failure"))]))));
      }
      return Went(ctx, Some(N2Out(Accept, Obj(AcceptFields(plmn, id, ctx[id])))));
    }
  }

  // ---------------------------------------------------------------- any order of messages

  /** Contexts after these messages, from an empty table; None once a handler has thrown. */
  function AmfRun(p: Plmn, es: seq<N2Event>): Option<Contexts>
  {
    if es == [] then Some(map[])
    else
      match AmfRun(p, es[..|es| - 1])
      case None => None
      case Some(ctx) =>
        var r := AmfStep(p, ctx, es[|es| - 1]);
        if r.Thrown? then None else Some(r.ctx)
  }

  predicate Fetches(e: N2Event, id: int)
  {
    Read(e.text, MsgTypeKey) == TypeName(RequestMsg) && !e.drop && Stoi(Read(e.text, RanIdKey)) == Some(id)
  }

  /** XRES* of the last vector fetched for this identifier. */
  function LastVector(es: seq<N2Event>, id: int): Option<string>
  {
    if es == [] then None
    else if Fetches(es[|es| - 1], id) then Some(Read(es[|es| - 1].body, XresKey))
    else LastVector(es[..|es| - 1], id)
  }

  lemma {:induction false} ContextIsLastVector(p: Plmn, es: seq<N2Event>, id: int)
    requires AmfRun(p, es).Some?
    ensures var ctx := AmfRun(p, es).value;
            LastVector(es, id) == if id in ctx then Some(ctx[id].xresStar) else None
  {
    hide Read, Stoi, Obj, AcceptFields, ChallengeFields;
    if es != [] {
      ContextIsLastVector(p, es[..|es| - 1], id);
    }
  }

  /** In every order of messages: a Registration Accept answers an Authentication Response whose
      RES* equals the XRES* of the last vector fetched for that identifier, and only that. */
  lemma AcceptsOnlyLastVector(p: Plmn, es: seq<N2Event>, e: N2Event)
    requires AmfRun(p, es).Some?
    ensures var r := AmfStep(p, AmfRun(p, es).value, e);
            var id := Stoi(Read(e.text, RanIdKey));
            r.Went? && r.out.Some? && r.out.value.kind == Accept <==>
            && Read(e.text, MsgTypeKey) == TypeName(ResponseMsg) && id.Some?
            && LastVector(es, id.value) == Some(Read(e.text, ResKey))
  {
    var id := Stoi(Read(e.text, RanIdKey));
    hide Read, Stoi, Obj, AcceptFields, ChallengeFields;
    if id.Some? {
      ContextIsLastVector(p, es, id.value);
    }
  }
}
