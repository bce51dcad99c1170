/** What the session manager does to the stores, to its message and to Chronos,
    said of the values before and after, for any stores that may be reachable or
    not. Nothing here refers to how the work is done. */
module ManagerSpec {
  import opened Wrappers
  import opened Uint32
  import opened Accounting
  import opened Replicas
  import opened SessionStores

  /** How `handle` ends: the message is unknown and dropped, or ready to be
      sent, or still contending after more failures than were permitted. */
  datatype Handling = Dropped | Ready(msg: Message) | Contending

  /** A request to Chronos: POST and PUT carry interval, repeat-for time and the
      call to come back for. */
  datatype TimerRequest =
    | Post(interval: uint32, repeatFor: uint32, ref: CallRef)
    | Put(id: string, interval: uint32, repeatFor: uint32, ref: CallRef)
    | Delete(id: string)

  // ----- handle()

  predicate Reached(rs: seq<Replica>, ups: seq<bool>, i: nat)
    requires i < |rs| == |ups|
  {
    ups[i] && Holds(rs[i])
  }

  /** Store `i` is the first, in the order they are asked, that can be reached and holds the session. */
  predicate FirstReached(rs: seq<Replica>, ups: seq<bool>, i: nat)
    requires |rs| == |ups|
  {
    i < |rs| && Reached(rs, ups, i) && forall j :: 0 <= j < i ==> !Reached(rs, ups, j)
  }

  predicate NoneReached(rs: seq<Replica>, ups: seq<bool>)
    requires |rs| == |ups|
  {
    forall j :: 0 <= j < |rs| ==> !Reached(rs, ups, j)
  }

  /** The session with its record number one higher, modulo 2^32. */
  function Incremented(s: Session): Session {
    s.(recordNumber := (s.recordNumber + 1) % 0x1_0000_0000)
  }

  /** The message is `m` with what `s` says of the session. */
  predicate CarriesSession(r: Message, m: Message, s: Session) {
    && r.ref == m.ref && r.recordType == m.recordType && r.timerInterim == m.timerInterim
    && r.recordNumber == s.recordNumber
    && r.ccfs == s.ccfs
    && r.sessionId == s.sessionId
    && r.timerId == s.timerId
    && r.interimInterval == s.interimInterval
    && r.refreshTime == if m.refreshTime == 0 then s.refreshTime else m.refreshTime
  }

  /** The message carries the next number of the stored session `s`. */
  predicate FilledFrom(r: Message, m: Message, s: Session) {
    CarriesSession(r, m, Incremented(s))
  }

  /** INTERIM, one store: a session there counts on; a store without one takes
      the incremented copy; one that cannot be reached is skipped. */
  predicate Counted(r: Replica, r': Replica, up: bool, s: Session) {
    if !up then r' == r
    else Renewed(r, r', Incremented(if Holds(r) then Current(r) else s))
  }

  /** Deletion, one store. */
  predicate Deleted(r: Replica, r': Replica, up: bool) {
    if up then r'.entry.None? else r' == r
  }

  /** The stores from `from` up to `to` have been dealt with like this. */
  predicate AllCounted(rs: seq<Replica>, rs': seq<Replica>, ups: seq<bool>, s: Session, from: nat, to: nat)
    requires |rs| == |rs'| == |ups|
  {
    forall i :: from <= i < to && i < |rs| ==> Counted(rs[i], rs'[i], ups[i], s)
  }

  predicate AllDeleted(rs: seq<Replica>, rs': seq<Replica>, ups: seq<bool>, from: nat, to: nat)
    requires |rs| == |rs'| == |ups|
  {
    forall i :: from <= i < to && i < |rs| ==> Deleted(rs[i], rs'[i], ups[i])
  }

  /** An INTERIM or STOP that works with session `s` is done with the stores. */
  predicate DoneWith(m: Message, s: Session, rs: seq<Replica>, rs': seq<Replica>, ups: seq<bool>,
                     r: Message, asked: seq<TimerRequest>)
    requires |rs| == |rs'| == |ups|
  {
    && FilledFrom(r, m, s)
    && if m.recordType.Interim? then AllCounted(rs, rs', ups, s, 0, |rs|) && asked == []
       else
         && AllDeleted(rs, rs', ups, 0, |rs|)
         && asked == if s.timerId == "NO_TIMER" then [] else [Delete(s.timerId)]
  }

  /** What `handle` has done when it ends: a START or EVENT gets number 1 and
      touches nothing; an INTERIM or STOP is dropped exactly if no store that can
      be reached holds the session, and otherwise works with the session of the
      first that does. */
  ghost predicate Handled(m: Message, rs: seq<Replica>, rs': seq<Replica>, ups: seq<bool>,
                          outcome: Handling, asked: seq<TimerRequest>)
    requires |rs| == |rs'| == |ups|
  {
    if m.recordType.Start? || m.recordType.Event? then
      outcome == Ready(m.(recordNumber := 1)) && rs' == rs && asked == []
    else if NoneReached(rs, ups) then
      outcome.Dropped? && rs' == rs && asked == []
    else
      && !outcome.Dropped?
      && (outcome.Contending? ==> asked == [])
      && (outcome.Ready? ==>
            exists i: nat :: FirstReached(rs, ups, i) && DoneWith(m, Current(rs[i]), rs, rs', ups, outcome.msg, asked))
  }

  // ----- on_ccf_response()

  /** The interim interval in force: the answered one, else that of the session, else the refresh time. */
  function InForce(m: Message, answered: uint32): uint32 {
    if answered != 0 then answered
    else if m.interimInterval != 0 then m.interimInterval
    else m.refreshTime
  }

  /** Chronos is asked exactly for an accepted START, and for an INTERIM that no
      timer sent unless it is answered 5002, whose refresh time exceeds the interval. */
  predicate AsksChronos(m: Message, accepted: bool, answered: uint32, rc: int) {
    && InForce(m, answered) < m.refreshTime
    && ((m.recordType.Start? && accepted)
        || (m.recordType.Interim? && !m.timerInterim && (accepted || rc != 5002)))
  }

  /** What it is asked: a START, and a session without a timer, POST. */
  function Asked(m: Message, accepted: bool, answered: uint32, rc: int): (asked: seq<TimerRequest>)
    ensures forall q :: q in asked ==> !q.Delete? && 0 < q.interval < q.repeatFor && q.ref == m.ref
  {
    if !AsksChronos(m, accepted, answered, rc) then []
    else if m.recordType.Start? || m.timerId == "NO_TIMER" then [Post(InForce(m, answered), m.refreshTime, m.ref)]
    else [Put(m.timerId, InForce(m, answered), m.refreshTime, m.ref)]
  }

  /** The session of an accepted START, with the timer that Chronos gave it. */
  predicate Created(r: Replica, r': Replica, up: bool, m: Message, sessionId: string, timerId: string, interval: uint32) {
    if up && Fits(r, 0) then
      Renewed(r, r', Session(sessionId, m.ccfs, m.recordNumber, timerId, m.refreshTime, interval))
    else r' == r
  }

  predicate Retimed(r: Replica, r': Replica, up: bool, timerId: string) {
    if up && Holds(r) then Renewed(r, r', Current(r).(timerId := timerId)) else r' == r
  }

  /** What `on_ccf_response` has done to the stores. */
  predicate Responded(accepted: bool, answered: uint32, sessionId: string, rc: int, m: Message, reply: Option<string>,
                      rs: seq<Replica>, rs': seq<Replica>, ups: seq<bool>)
    requires |rs| == |rs'| == |ups|
  {
    var asks := AsksChronos(m, accepted, answered, rc);
    if m.recordType.Start? && accepted then
      var timerId := if asks && reply.Some? then reply.value else "NO_TIMER";
      forall i :: 0 <= i < |rs| ==> Created(rs[i], rs'[i], ups[i], m, sessionId, timerId, InForce(m, answered))
    else if m.recordType.Interim? && !accepted && rc == 5002 then
      AllDeleted(rs, rs', ups, 0, |rs|)
    else if asks && reply.Some? && reply.value != m.timerId then
      forall i :: 0 <= i < |rs| ==> Retimed(rs[i], rs'[i], ups[i], reply.value)
    else rs' == rs
  }

  // ----- what follows

  /** A network INTERIM that is accepted without an interval of its own renews the
      timer of its session with the stored interval, whatever the stores. */
  lemma RenewsStoredTimer(m: Message, s: Session, r: Message, rc: int)
    requires m.recordType.Interim? && !m.timerInterim && FilledFrom(r, m, s)
    requires 0 < s.interimInterval < r.refreshTime
    ensures Asked(r, true, 0, rc)
            == [if s.timerId == "NO_TIMER" then Post(s.interimInterval, r.refreshTime, m.ref)
                else Put(s.timerId, s.interimInterval, r.refreshTime, m.ref)]
  {
  }
}
