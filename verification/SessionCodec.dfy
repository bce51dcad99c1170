/** The JSON (de)serializer of the session store. */
module SessionCodec {
  import opened Wrappers
  import opened Uint32
  import opened Accounting
  import opened CStrings
  import opened Json

  /** The document that describes session `s`. */
  function Encoded(s: Session): Json {
    Object([
      ("session_id", String(CStr(s.sessionId))),
      ("ccfs", Array(EncodedCcfs(s.ccfs))),
      ("acct_record_num", Number(ToSigned(s.recordNumber))),
      ("timer_id", String(CStr(s.timerId))),
      ("refresh_time", Number(ToSigned(s.refreshTime))),
      ("interim_interval", Number(ToSigned(s.interimInterval)))])
  }

  function EncodedCcfs(ccfs: seq<string>): (items: seq<Json>)
    ensures |items| == |ccfs|
    ensures forall i :: 0 <= i < |ccfs| ==> items[i] == String(CStr(ccfs[i]))
  {
    seq(|ccfs|, i requires 0 <= i < |ccfs| => String(CStr(ccfs[i])))
  }

  /** Which documents describe a session. */
  predicate Describes(doc: Json) {
    && doc.HasString("session_id")
    && doc.HasArray("ccfs")
    && (forall i :: 0 <= i < |doc.Member("ccfs").items| ==> doc.Member("ccfs").items[i].String?)
    && doc.HasInt("acct_record_num")
    && doc.HasString("timer_id")
    && doc.HasInt("refresh_time")
    && doc.HasInt("interim_interval")
  }

  /** The session a document describes, if any; `None` is a text that does not parse. */
  function Decoded(doc: Option<Json>): Option<Session> {
    if doc.Some? && Describes(doc.value) then
      var d := doc.value;
      Some(Session(d.StringMember("session_id"),
                   Texts(d.Member("ccfs").items),
                   ToUnsigned(d.IntMember("acct_record_num")),
                   d.StringMember("timer_id"),
                   ToUnsigned(d.IntMember("refresh_time")),
                   ToUnsigned(d.IntMember("interim_interval"))))
    else
      None
  }

  /** Writes the members in order, filling the CCF array in a loop. */
  method SerializeSession(s: Session) returns (doc: Json)
    ensures doc == Encoded(s)
  {
    var members := [("session_id", String(CStr(s.sessionId)))];
    var ccfs: seq<Json> := [];
    for i := 0 to |s.ccfs|
      invariant ccfs == EncodedCcfs(s.ccfs)[..i]
    {
      ccfs := ccfs + [String(CStr(s.ccfs[i]))];
    }
    assert ccfs == EncodedCcfs(s.ccfs);
    members := members + [("ccfs", Array(ccfs))];
    members := members + [("acct_record_num", Number(ToSigned(s.recordNumber)))];
    members := members + [("timer_id", String(CStr(s.timerId)))];
    members := members + [("refresh_time", Number(ToSigned(s.refreshTime)))];
    members := members + [("interim_interval", Number(ToSigned(s.interimInterval)))];
    doc := Object(members);
  }

  /** Reads the members one by one and gives up at the first that is missing
      or of the wrong type. */
  method DeserializeSession(doc: Option<Json>) returns (r: Option<Session>)
    ensures r == Decoded(doc)
  {
    if doc.None? { return None; }
    var d := doc.value;
    if !d.HasString("session_id") { return None; }
    var sessionId := d.StringMember("session_id");

    if !d.HasArray("ccfs") { return None; }
    var items := d.Member("ccfs").items;
    var ccfs: seq<string> := [];
    for i := 0 to |items|
      invariant forall j :: 0 <= j < i ==> items[j].String?
      invariant |ccfs| == i && forall j :: 0 <= j < i ==> ccfs[j] == CStr(items[j].s)
    {
      if !items[i].String? { return None; }
      ccfs := ccfs + [CStr(items[i].s)];
    }
    assert ccfs == Texts(items);

    if !d.HasInt("acct_record_num") { return None; }
    if !d.HasString("timer_id") { return None; }
    if !d.HasInt("refresh_time") { return None; }
    if !d.HasInt("interim_interval") { return None; }
    r := Some(Session(sessionId, ccfs,
                      ToUnsigned(d.IntMember("acct_record_num")),
                      d.StringMember("timer_id"),
                      ToUnsigned(d.IntMember("refresh_time")),
                      ToUnsigned(d.IntMember("interim_interval"))));
  }

  lemma {:induction false} CStrTwice(s: string)
    ensures CStr(CStr(s)) == CStr(s)
  {
    CStrOfNulFree(CStr(s));
  }

  lemma EncodedMembers(s: Session)
    ensures var d := Encoded(s);
            && d.HasString("session_id") && d.Member("session_id").s == CStr(s.sessionId)
            && d.HasArray("ccfs") && d.Member("ccfs").items == EncodedCcfs(s.ccfs)
            && d.HasInt("acct_record_num") && d.IntMember("acct_record_num") == ToSigned(s.recordNumber)
            && d.HasString("timer_id") && d.Member("timer_id").s == CStr(s.timerId)
            && d.HasInt("refresh_time") && d.IntMember("refresh_time") == ToSigned(s.refreshTime)
            && d.HasInt("interim_interval") && d.IntMember("interim_interval") == ToSigned(s.interimInterval)
  {
    var m := Encoded(s).members;
    FindHere(m, 0);
    FindHere(m, 1);
    FindHere(m, 2);
    FindHere(m, 3);
    FindHere(m, 4);
    FindHere(m, 5);
  }

  /** Every session survives the trip through the store, up to the NUL
      truncation that `CStrings.CanonExact` describes; in particular every
      32-bit value does, although it is written and read as a signed `int`. */
  lemma RoundTrip(s: Session)
    ensures Decoded(Some(Encoded(s))) == Some(Canon(s))
  {
    EncodedMembers(s);
    var d := Encoded(s);
    CStrTwice(s.sessionId);
    CStrTwice(s.timerId);
    forall i | 0 <= i < |s.ccfs|
      ensures CStr(CStr(s.ccfs[i])) == CStr(s.ccfs[i])
    {
      CStrTwice(s.ccfs[i]);
    }
    assert Texts(d.Member("ccfs").items) == CStrs(s.ccfs);
  }

  /** Whatever can be read from a store can be written back and read again
      unchanged. */
  lemma ReadIsStable(doc: Option<Json>)
    requires Decoded(doc).Some?
    ensures NulFree(Decoded(doc).value)
    ensures Decoded(Some(Encoded(Decoded(doc).value))) == Decoded(doc)
  {
    RoundTrip(Decoded(doc).value);
    CanonExact(Decoded(doc).value);
  }
}
