/** The HTTP front end: what a request body is turned into, and the request
    body that Ralf registers with Chronos to have sent to itself. */
module BillingTask {
  import opened Wrappers
  import opened Uint32
  import opened Accounting
  import opened CStrings
  import opened Json
  import Protocol

  const HTTP_OK := 200
  const HTTP_BAD_REQUEST := 400
  const HTTP_BAD_METHOD := 405

  /** What becomes of a body: a 400, a 200 without further processing, or a
      message for the session manager. */
  datatype Verdict = Rejected | Ignored | Accepted(msg: Message)

  predicate NamesCall(d: Json) {
    && d.HasObject("event")
    && d.Member("event").HasObject("Service-Information")
    && d.Member("event").Member("Service-Information").HasObject("IMS-Information")
    && Ims(d).HasInt("Role-Of-Node")
    && Ims(d).HasInt("Node-Functionality")
  }

  function Ims(d: Json): Json
    requires d.HasObject("event") && d.Member("event").HasObject("Service-Information")
    requires d.Member("event").Member("Service-Information").HasObject("IMS-Information")
  {
    d.Member("event").Member("Service-Information").Member("IMS-Information")
  }

  function RecordTypeOf(code: int): Option<RecordType> {
    match code
    case 1 => Some(Event)
    case 2 => Some(Start)
    case 3 => Some(Interim)
    case 4 => Some(Stop)
    case _ => None
  }

  predicate NamesRecordType(d: Json)
    requires d.HasObject("event")
  {
    && d.Member("event").HasInt("Accounting-Record-Type")
    && RecordTypeOf(d.Member("event").IntMember("Accounting-Record-Type")).Some?
  }

  predicate ListsCcfs(peers: Json) {
    && peers.HasArray("ccf")
    && peers.Member("ccf").items != []
    && forall i :: 0 <= i < |peers.Member("ccf").items| ==> peers.Member("ccf").items[i].String?
  }

  /** A missing, fractional or out-of-range interval counts as 0; a negative one wraps. */
  function RefreshTimeOf(event: Json): uint32 {
    if event.HasInt("Acct-Interim-Interval") then ToUnsigned(event.IntMember("Acct-Interim-Interval")) else 0
  }

  function Judge(callId: string, timerInterim: bool, body: Option<Json>): Verdict {
    if body.None? || !NamesCall(body.value) || !NamesRecordType(body.value) then Rejected
    else
      var d := body.value;
      var event := d.Member("event");
      var ref := CallRef(callId, Ims(d).IntMember("Role-Of-Node"), Ims(d).IntMember("Node-Functionality"));
      var recordType := RecordTypeOf(event.IntMember("Accounting-Record-Type")).value;
      if recordType.Interim? || recordType.Stop? then
        Accepted(NewMessage(ref, recordType, timerInterim, RefreshTimeOf(event), []))
      else if !d.HasObject("peers") then Ignored
      else if !ListsCcfs(d.Member("peers")) then Rejected
      else
        Accepted(NewMessage(ref, recordType, timerInterim, RefreshTimeOf(event),
                            Texts(d.Member("peers").Member("ccf").items)))
  }

  // ----- what a body says, member by member

  predicate ObjectAt(o: Json, name: string) {
    o.HasMember(name) && o.Member(name).Object?
  }

  /** A number that fits an `int`. */
  predicate IntAt(o: Json, name: string) {
    o.HasMember(name) && o.Member(name).Number? && -0x8000_0000 <= o.Member(name).n < 0x8000_0000
  }

  /** The body has an event with a role, a functionality and one of the four record types. */
  predicate Identified(d: Json) {
    && ObjectAt(d, "event")
    && var event := d.Member("event");
    && ObjectAt(event, "Service-Information")
    && ObjectAt(event.Member("Service-Information"), "IMS-Information")
    && var ims := event.Member("Service-Information").Member("IMS-Information");
    && IntAt(ims, "Role-Of-Node") && IntAt(ims, "Node-Functionality")
    && IntAt(event, "Accounting-Record-Type") && 1 <= event.Member("Accounting-Record-Type").n <= 4
  }

  /** It is a START or EVENT, which must bring its own CCFs. */
  predicate NeedsPeers(d: Json)
    requires Identified(d)
  {
    d.Member("event").Member("Accounting-Record-Type").n <= 2
  }

  /** Its peers name at least one CCF, and nothing but CCFs. */
  predicate NamesPeers(d: Json) {
    && ObjectAt(d, "peers") && d.Member("peers").HasMember("ccf") && d.Member("peers").Member("ccf").Array?
    && var items := d.Member("peers").Member("ccf").items;
       |items| > 0 && forall i :: 0 <= i < |items| ==> items[i].String?
  }

  /** The message says of the call what the body says, and nothing of the session. */
  predicate Says(d: Json, m: Message)
    requires Identified(d)
  {
    var event := d.Member("event");
    var ims := event.Member("Service-Information").Member("IMS-Information");
    && m.ref.role == ims.Member("Role-Of-Node").n
    && m.ref.function_ == ims.Member("Node-Functionality").n
    && (match m.recordType
        case Event => event.Member("Accounting-Record-Type").n == 1
        case Start => event.Member("Accounting-Record-Type").n == 2
        case Interim => event.Member("Accounting-Record-Type").n == 3
        case Stop => event.Member("Accounting-Record-Type").n == 4)
    && (if IntAt(event, "Acct-Interim-Interval") then
          m.refreshTime == event.Member("Acct-Interim-Interval").n % 0x1_0000_0000
        else m.refreshTime == 0)
    && m.sessionId == "" && m.timerId == "" && m.recordNumber == 0 && m.interimInterval == 0
  }

  /** The CCFs of the message are those of the body, in order. */
  predicate SaysCcfs(d: Json, m: Message)
    requires Identified(d) && (NeedsPeers(d) ==> NamesPeers(d))
  {
    if NeedsPeers(d) then
      var items := d.Member("peers").Member("ccf").items;
      |m.ccfs| == |items| && forall i :: 0 <= i < |items| ==> m.ccfs[i] == CStr(items[i].s)
    else m.ccfs == []
  }

  /** The verdict in terms of the body: a 400 for anything that is not identified,
      and for a START or EVENT whose peers are no proper list of CCFs; a START or
      EVENT without a peers object is ignored; everything else is accepted as
      the message that the body describes. */
  lemma VerdictOf(callId: string, timerInterim: bool, body: Option<Json>)
    ensures var v := Judge(callId, timerInterim, body);
            if body.None? || !Identified(body.value) then v.Rejected?
            else if NeedsPeers(body.value) && !ObjectAt(body.value, "peers") then v.Ignored?
            else if NeedsPeers(body.value) && !NamesPeers(body.value) then v.Rejected?
            else
              && v.Accepted? && v.msg.ref.callId == callId && v.msg.timerInterim == timerInterim
              && Says(body.value, v.msg) && SaysCcfs(body.value, v.msg)
  {
    if body.Some? && Identified(body.value) {
      var event := body.value.Member("event");
      assert NamesCall(body.value) && NamesRecordType(body.value);
      if IntAt(event, "Acct-Interim-Interval") {
        assert event.HasInt("Acct-Interim-Interval");
      }
    }
  }

  /** Checks step by step with early returns; `None` is a body that is not JSON. */
  method ParseBody(callId: string, timerInterim: bool, body: Option<Json>)
    returns (code: int, msg: Option<Message>)
    ensures match Judge(callId, timerInterim, body)
            case Rejected => code == HTTP_BAD_REQUEST && msg.None?
            case Ignored => code == HTTP_OK && msg.None?
            case Accepted(m) => code == HTTP_OK && msg == Some(m)
  {
    msg := None;
    if body.None? || !body.value.HasObject("event") {
      return HTTP_BAD_REQUEST, None;
    }
    var d := body.value;
    var event := d.Member("event");

    if !event.HasObject("Service-Information")
       || !event.Member("Service-Information").HasObject("IMS-Information") {
      return HTTP_BAD_REQUEST, None;
    }
    var ims := event.Member("Service-Information").Member("IMS-Information");
    if !ims.HasInt("Role-Of-Node") {
      return HTTP_BAD_REQUEST, None;
    }
    var role := ims.IntMember("Role-Of-Node");
    if !ims.HasInt("Node-Functionality") {
      return HTTP_BAD_REQUEST, None;
    }
    var functionality := ims.IntMember("Node-Functionality");

    if !event.HasInt("Accounting-Record-Type") {
      return HTTP_BAD_REQUEST, None;
    }
    var recordType := RecordTypeOf(event.IntMember("Accounting-Record-Type"));
    if recordType.None? {
      return HTTP_BAD_REQUEST, None;
    }

    var refreshTime := 0;
    if event.HasInt("Acct-Interim-Interval") {
      refreshTime := ToUnsigned(event.IntMember("Acct-Interim-Interval"));
    }

    var ccfs: seq<string> := [];
    if recordType.value.Start? || recordType.value.Event? {
      if !d.HasObject("peers") {
        return HTTP_OK, None;
      }
      var peers := d.Member("peers");
      if !peers.HasArray("ccf") || peers.Member("ccf").items == [] {
        return HTTP_BAD_REQUEST, None;
      }
      var items := peers.Member("ccf").items;
      for i := 0 to |items|
        invariant |ccfs| == i
        invariant forall j :: 0 <= j < i ==> items[j].String? && ccfs[j] == CStr(items[j].s)
      {
        if !items[i].String? {
          return HTTP_BAD_REQUEST, None;
        }
        ccfs := ccfs + [CStr(items[i].s)];
      }
      assert ccfs == Texts(items);
    }

    msg := Some(NewMessage(CallRef(callId, role, functionality), recordType.value, timerInterim, refreshTime, ccfs));
    code := HTTP_OK;
  }

  /** The request is a POST whose body is identified and, if it needs peers, names them. */
  predicate Proper(isPost: bool, body: Option<Json>) {
    isPost && body.Some? && Identified(body.value) && (NeedsPeers(body.value) ==> NamesPeers(body.value))
  }

  /** The hand-off: a message reaches the session manager exactly from a proper
      request, and it is the message that the request describes, for the call id
      of its path, a timer's exactly when the parameter says "true". Without a
      message the reply is a 405 for another method, a 200 for a START or EVENT
      without peers, and a 400 otherwise. */
  method Run(isPost: bool, timerParam: string, callId: string, body: Option<Json>)
    returns (code: int, handed: Option<Message>)
    ensures handed.Some? <==> Proper(isPost, body)
    ensures handed.Some? ==>
              && code == 200
              && handed.value.ref.callId == callId && handed.value.timerInterim == (timerParam == "true")
              && Says(body.value, handed.value) && SaysCcfs(body.value, handed.value)
              && FromRequest(handed.value)
    ensures handed.None? ==>
              code == if !isPost then 405
                      else if body.Some? && Identified(body.value) && NeedsPeers(body.value)
                              && !ObjectAt(body.value, "peers") then 200
                      else 400
  {
    if !isPost {
      return HTTP_BAD_METHOD, None;
    }
    var timerInterim := timerParam == "true";
    code, handed := ParseBody(callId, timerInterim, body);
    VerdictOf(callId, timerInterim, body);
    AcceptedIsParsed(callId, timerInterim, body);
  }

  /** A message as `parse_body` hands it over: nothing of the session is filled
      in yet, and it has CCFs exactly if it is a START or an EVENT. */
  predicate FromRequest(m: Message) {
    Protocol.Parsed(m) && forall i :: 0 <= i < |m.ccfs| ==> '\0' !in m.ccfs[i]
  }

  lemma AcceptedIsParsed(callId: string, timerInterim: bool, body: Option<Json>)
    ensures var v := Judge(callId, timerInterim, body);
            v.Accepted? ==> FromRequest(v.msg) && v.msg.ref.callId == callId && v.msg.timerInterim == timerInterim
  {
  }

  function CodeOf(r: RecordType): int {
    match r
    case Event => 1
    case Start => 2
    case Interim => 3
    case Stop => 4
  }

  /** A body that asks for message `m`. */
  function RequestFor(m: Message): Json {
    Object([
      ("peers", Object([("ccf", Array(seq(|m.ccfs|, i requires 0 <= i < |m.ccfs| => String(m.ccfs[i]))))])),
      ("event", Object([
        ("Service-Information", Object([
          ("IMS-Information", Object([
            ("Role-Of-Node", Number(m.ref.role)),
            ("Node-Functionality", Number(m.ref.function_))]))])),
        ("Accounting-Record-Type", Number(CodeOf(m.recordType))),
        ("Acct-Interim-Interval", Number(ToSigned(m.refreshTime)))]))])
  }

  lemma RequestNames(m: Message)
    ensures var d := RequestFor(m);
            && NamesCall(d) && NamesRecordType(d)
            && Ims(d).IntMember("Role-Of-Node") == m.ref.role
            && Ims(d).IntMember("Node-Functionality") == m.ref.function_
            && RecordTypeOf(d.Member("event").IntMember("Accounting-Record-Type")) == Some(m.recordType)
            && RefreshTimeOf(d.Member("event")) == m.refreshTime
  {
    var d := RequestFor(m);
    FindHere(d.members, 1);
    var event := d.Member("event");
    FindHere(event.members, 0);
    FindHere(event.members, 1);
    FindHere(event.members, 2);
    var service := event.Member("Service-Information");
    FindHere(service.members, 0);
    var ims := service.Member("IMS-Information");
    FindHere(ims.members, 0);
    FindHere(ims.members, 1);
  }

  lemma RequestListsCcfs(m: Message)
    requires m.ccfs != [] && FromRequest(m)
    ensures var d := RequestFor(m);
            && d.HasObject("peers") && ListsCcfs(d.Member("peers"))
            && Texts(d.Member("peers").Member("ccf").items) == m.ccfs
  {
    var d := RequestFor(m);
    FindHere(d.members, 0);
    FindHere(d.Member("peers").members, 0);
    forall i | 0 <= i < |m.ccfs|
      ensures CStr(m.ccfs[i]) == m.ccfs[i]
    {
      CStrOfNulFree(m.ccfs[i]);
    }
  }

  /** Exactly which messages reach the session manager: an INTERIM or STOP without
      CCFs, or a START or EVENT with at least one, of any refresh time and any
      32-bit codes. Every one of them has a request that produces it. */
  lemma AcceptedMessages(m: Message)
    ensures (exists body :: Judge(m.ref.callId, m.timerInterim, body) == Accepted(m)) <==> FromRequest(m)
  {
    if FromRequest(m) {
      RequestNames(m);
      if m.ccfs != [] {
        RequestListsCcfs(m);
      }
      assert Judge(m.ref.callId, m.timerInterim, Some(RequestFor(m))) == Accepted(m);
    }
    forall body | Judge(m.ref.callId, m.timerInterim, body) == Accepted(m)
      ensures FromRequest(m)
    {
      AcceptedIsParsed(m.ref.callId, m.timerInterim, body);
    }
  }

  // ----- the timer callback

  /** The body registered with Chronos. */
  function OpaqueData(ref: CallRef): Json {
    Object([("event", Object([
      ("Service-Information", Object([
        ("IMS-Information", Object([
          ("Role-Of-Node", Number(ref.role)),
          ("Node-Functionality", Number(ref.function_))]))])),
      ("Accounting-Record-Type", Number(3))]))])
  }

  /** Builds the document from the inside out. */
  method CreateOpaqueData(m: Message) returns (doc: Json)
    ensures doc == OpaqueData(m.ref)
  {
    var ims: seq<(string, Json)> := [("Role-Of-Node", Number(m.ref.role))];
    ims := ims + [("Node-Functionality", Number(m.ref.function_))];
    var service: seq<(string, Json)> := [("IMS-Information", Object(ims))];
    var event := [("Service-Information", Object(service))];
    event := event + [("Accounting-Record-Type", Number(3))];
    var members: seq<(string, Json)> := [("event", Object(event))];
    doc := Object(members);
    assert ims == [("Role-Of-Node", Number(m.ref.role)), ("Node-Functionality", Number(m.ref.function_))];
    assert event == [("Service-Information", Object(service)), ("Accounting-Record-Type", Number(3))];
  }

  /** A timer callback is accepted and is an INTERIM for the very call it was
      registered for, marked as timer-driven, with no CCFs and no refresh time
      of its own. */
  lemma CallbackRoundTrip(ref: CallRef)
    ensures Judge(ref.callId, true, Some(OpaqueData(ref))) == Accepted(TimerMessage(ref))
    ensures var m := TimerMessage(ref);
            m.ref == ref && m.recordType.Interim? && m.timerInterim && m.ccfs == [] && m.refreshTime == 0
  {
    var d := OpaqueData(ref);
    assert d.members[0].0 == "event";
    assert d.HasObject("event");
    var event := d.Member("event");
    assert event.members[0].0 == "Service-Information";
    assert event.HasObject("Service-Information");
    assert event.members[1..] == [("Accounting-Record-Type", Number(3))];
    assert Find(event.members[1..], "Accounting-Record-Type") == Some(Number(3));
    assert event.HasInt("Accounting-Record-Type");
    assert Find([], "Acct-Interim-Interval").None?;
    assert event.members[1..][1..] == [];
    assert Find(event.members[1..], "Acct-Interim-Interval").None?;
    assert Find(event.members, "Acct-Interim-Interval").None?;
    assert !event.HasInt("Acct-Interim-Interval");
    var service := event.Member("Service-Information");
    assert service.members[0].0 == "IMS-Information";
    assert service.HasObject("IMS-Information");
    var ims := Ims(d);
    assert ims.members[0].0 == "Role-Of-Node";
    assert ims.HasInt("Role-Of-Node");
    assert Find(ims.members[1..], "Node-Functionality") == Some(Number(ref.function_));
    assert ims.HasInt("Node-Functionality");
  }
}
