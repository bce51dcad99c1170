/** How one message is handled, as an automaton: every state is a point where
    the C++ code waits for a store, for Chronos or for a Diameter answer, and
    every transition is the code between two such points. */
module HandlerMachine {
  import opened Wrappers
  import opened Uint32
  import opened Accounting
  import opened Replicas
  import opened Failover

  /** `remotes[i]` lists the remote stores of site `i` in the configured order. */
  datatype Topology = Topology(remotes: seq<seq<nat>>)

  /** Every site lists every other site once. */
  ghost predicate Complete(t: Topology) {
    forall i :: 0 <= i < |t.remotes| ==> ListsOthers(t.remotes[i], i, |t.remotes|)
  }

  ghost predicate ListsOthers(list: seq<nat>, site: nat, sites: nat) {
    && site !in list
    && (forall j, k :: 0 <= j < k < |list| ==> list[j] != list[k])
    && (forall j: nat :: j < sites && j != site ==> j in list)
  }

  /** Every remote store is some site's store. */
  predicate Sited(t: Topology) {
    forall i, k :: 0 <= i < |t.remotes| && 0 <= k < |t.remotes[i]| ==> t.remotes[i][k] < |t.remotes|
  }

  datatype Pc =
    // handle(): finding the session
    | FindLocal
    | FindRemote(next: nat)
    // handle(): INTERIM
    | WriteLocal(found: Session, cas: nat)
    | ReadRemote(next: nat, found: Session)
    | WriteRemote(next: nat, found: Session, theirs: Session, cas: nat)
    // handle(): STOP; `from` is the site the session was found at
    | EraseLocal(found: Session, cas: nat, from: nat)
    | RemoveRemote(next: nat, found: Session)
    | Cancel(found: Session)
    // PeerMessageSender
    | Sending(which: nat)
    | Waiting(which: nat)
    // on_ccf_response(): Chronos, then the stores
    | Arming(interval: uint32, sessionId: string)
    | Creating(next: nat, created: Session)
    | Purging(next: nat)
    // update_timer_id()
    | RetimeRead(next: nat, timerId: string)
    | RetimeWrite(next: nat, timerId: string, theirs: Session, cas: nat)
    | Finished

  /** `answered` counts calls of `on_ccf_response` and `freed` deletions of the
      message; `failures` counts retries after data contention and `accesses`
      the store accesses of `handle`. */
  datatype Handler = Handler(site: nat, msg: Message, pc: Pc,
                             answered: nat, freed: nat, failures: nat, accesses: nat)

  function Remotes(t: Topology, site: nat): seq<nat>
    requires site < |t.remotes|
  {
    t.remotes[site]
  }

  /** The local store and then the remote ones. */
  function Places(t: Topology, site: nat): seq<nat>
    requires site < |t.remotes|
  {
    [site] + t.remotes[site]
  }

  predicate AtStore(h: Handler) {
    match h.pc
    case FindLocal | FindRemote(_) | WriteLocal(_, _) | ReadRemote(_, _) | WriteRemote(_, _, _, _) => true
    case EraseLocal(_, _, _) | RemoveRemote(_, _) => true
    case Creating(_, _) | Purging(_) | RetimeRead(_, _) | RetimeWrite(_, _, _, _) => true
    case _ => false
  }

  /** The states of `handle` before the message goes to the Diameter stack. */
  predicate InHandle(pc: Pc) {
    match pc
    case FindLocal | FindRemote(_) | WriteLocal(_, _) | ReadRemote(_, _) | WriteRemote(_, _, _, _) => true
    case EraseLocal(_, _, _) | RemoveRemote(_, _) | Cancel(_) => true
    case _ => false
  }

  predicate InRange(t: Topology, h: Handler) {
    && h.site < |t.remotes|
    && match h.pc
       case FindRemote(k) => k < |Remotes(t, h.site)|
       case ReadRemote(k, _) => k < |Remotes(t, h.site)|
       case WriteRemote(k, _, _, _) => k < |Remotes(t, h.site)|
       case RemoveRemote(k, _) => k < |Remotes(t, h.site)|
       case EraseLocal(_, _, from) => from < |t.remotes|
       case Creating(k, _) => k < |Places(t, h.site)|
       case Purging(k) => k < |Places(t, h.site)|
       case RetimeRead(k, _) => k < |Places(t, h.site)|
       case RetimeWrite(k, _, _, _) => k < |Places(t, h.site)|
       case _ => true
  }

  /** The store a handler accesses next. */
  function Target(t: Topology, h: Handler): (site: nat)
    requires Sited(t) && InRange(t, h) && AtStore(h)
    ensures site < |t.remotes|
  {
    match h.pc
    case FindLocal | WriteLocal(_, _) | EraseLocal(_, _, _) => h.site
    case FindRemote(k) => Remotes(t, h.site)[k]
    case ReadRemote(k, _) => Remotes(t, h.site)[k]
    case WriteRemote(k, _, _, _) => Remotes(t, h.site)[k]
    case RemoveRemote(k, _) => Remotes(t, h.site)[k]
    case Creating(k, _) => Places(t, h.site)[k]
    case Purging(k) => Places(t, h.site)[k]
    case RetimeRead(k, _) => Places(t, h.site)[k]
    case RetimeWrite(k, _, _, _) => Places(t, h.site)[k]
  }

  /** The end of `handle` (unknown session) or of `on_ccf_response`: the message is deleted. */
  function Finish(h: Handler): Handler {
    h.(pc := Finished, freed := h.freed + 1)
  }

  /** The beginning of `handle`. */
  function Begin(site: nat, m: Message): Handler {
    if m.recordType.Interim? || m.recordType.Stop? then
      Handler(site, m, FindLocal, 0, 0, 0, 0)
    else
      Handler(site, m.(recordNumber := 1), Sending(0), 0, 0, 0, 0)
  }

  function FindFrom(t: Topology, h: Handler, k: nat): Handler
    requires h.site < |t.remotes|
  {
    if k < |Remotes(t, h.site)| then h.(pc := FindRemote(k)) else Finish(h)
  }

  /** A session was found at site `from`; it is incremented at once. A session
      found remotely is added to the local store with CAS 0, but erased from
      there with the CAS value of the store it came from. */
  function Found(h: Handler, held: Held, from: nat, isNew: bool): Handler {
    if h.msg.recordType.Interim? then
      h.(pc := WriteLocal(Bump(held.session), if isNew then 0 else held.cas))
    else
      h.(pc := EraseLocal(Bump(held.session), held.cas, from))
  }

  function FillMessage(m: Message, s: Session): Message {
    m.(recordNumber := s.recordNumber,
       ccfs := s.ccfs,
       sessionId := s.sessionId,
       timerId := s.timerId,
       refreshTime := if m.refreshTime == 0 then s.refreshTime else m.refreshTime,
       interimInterval := s.interimInterval)
  }

  /** The session data is copied to the message and the ACR is about to be sent. */
  function Fill(h: Handler, s: Session): Handler {
    h.(pc := Sending(0), msg := FillMessage(h.msg, s))
  }

  function UpdateFrom(t: Topology, h: Handler, k: nat, s: Session): Handler
    requires h.site < |t.remotes|
  {
    if k < |Remotes(t, h.site)| then h.(pc := ReadRemote(k, s)) else Fill(h, s)
  }

  function RemoveFrom(t: Topology, h: Handler, k: nat, s: Session): Handler
    requires h.site < |t.remotes|
  {
    if k < |Remotes(t, h.site)| then h.(pc := RemoveRemote(k, s))
    else if s.timerId != NO_TIMER then h.(pc := Cancel(s))
    else Fill(h, s)
  }

  function CreateFrom(t: Topology, h: Handler, k: nat, s: Session): Handler
    requires h.site < |t.remotes|
  {
    if k < |Places(t, h.site)| then h.(pc := Creating(k, s)) else Finish(h)
  }

  function PurgeFrom(t: Topology, h: Handler, k: nat): Handler
    requires h.site < |t.remotes|
  {
    if k < |Places(t, h.site)| then h.(pc := Purging(k)) else Finish(h)
  }

  function RetimeFrom(t: Topology, h: Handler, k: nat, timerId: string): Handler
    requires h.site < |t.remotes|
  {
    if k < |Places(t, h.site)| then h.(pc := RetimeRead(k, timerId)) else Finish(h)
  }

  function Retry(h: Handler, pc: Pc): Handler {
    h.(pc := pc, failures := h.failures + 1)
  }

  /** What a store access does to the handler. */
  function Resume(t: Topology, h: Handler, r: Replica, up: bool): Handler
    requires Sited(t) && InRange(t, h) && AtStore(h)
  {
    match h.pc
    case FindLocal =>
      var h' := h.(accesses := h.accesses + 1);
      (match Read(r, up)
       case Some(held) => Found(h', held, h.site, false)
       case None => FindFrom(t, h', 0))
    case FindRemote(k) =>
      var h' := h.(accesses := h.accesses + 1);
      (match Read(r, up)
       case Some(held) => Found(h', held, Remotes(t, h.site)[k], true)
       case None => FindFrom(t, h', k + 1))
    case WriteLocal(s, cas) =>
      var h' := h.(accesses := h.accesses + 1);
      if WriteStatus(r, cas, up).DATA_CONTENTION? then Retry(h', FindLocal)
      else UpdateFrom(t, h', 0, s)
    case ReadRemote(k, s) =>
      var h' := h.(accesses := h.accesses + 1);
      (match Read(r, up)
       case Some(held) => h'.(pc := WriteRemote(k, s, Bump(held.session), held.cas))
       case None => h'.(pc := WriteRemote(k, s, s, 0)))
    case WriteRemote(k, s, theirs, cas) =>
      var h' := h.(accesses := h.accesses + 1);
      if WriteStatus(r, cas, up).DATA_CONTENTION? then Retry(h', ReadRemote(k, s))
      else UpdateFrom(t, h', k + 1, s)
    case EraseLocal(s, cas, _) =>
      var h' := h.(accesses := h.accesses + 1);
      if WriteStatus(r, cas, up).DATA_CONTENTION? then Retry(h', FindLocal)
      else RemoveFrom(t, h', 0, s)
    case RemoveRemote(k, s) =>
      RemoveFrom(t, h.(accesses := h.accesses + 1), k + 1, s)
    case Creating(k, s) => CreateFrom(t, h, k + 1, s)
    case Purging(k) => PurgeFrom(t, h, k + 1)
    case RetimeRead(k, id) =>
      (match Read(r, up)
       case Some(held) =>
         h.(pc := RetimeWrite(k, id, held.session.(timerId := id), held.cas),
            msg := h.msg.(timerId := id))
       case None => RetimeFrom(t, h, k + 1, id))
    case RetimeWrite(k, id, _, _) => RetimeFrom(t, h, k + 1, id)
  }

  /** What a store access does to the store. */
  function Effect(h: Handler, r: Replica, up: bool): Replica
    requires AtStore(h)
  {
    match h.pc
    case WriteLocal(s, cas) => Write(r, s, cas, up)
    case WriteRemote(_, _, theirs, cas) => Write(r, theirs, cas, up)
    case EraseLocal(_, cas, _) => Erase(r, cas, up)
    case RemoveRemote(_, _) => Remove(r, up)
    case Creating(_, s) => Write(r, s, 0, up)
    case Purging(_) => Remove(r, up)
    case RetimeWrite(_, _, theirs, cas) => Write(r, theirs, cas, up)
    case _ => r
  }

  /** The interim interval in force after an answer: the answered one, else the
      session's, else the refresh time. */
  function Interval(m: Message, answered: uint32): uint32 {
    if answered != 0 then answered
    else if m.interimInterval != 0 then m.interimInterval
    else m.refreshTime
  }

  /** Only a message that is not itself timer-driven, or a START, arms a timer. */
  predicate Arms(m: Message, accepted: bool, rc: int, interval: uint32) {
    && m.refreshTime > interval
    && (if accepted then m.recordType.Start? || (m.recordType.Interim? && !m.timerInterim)
        else m.recordType.Interim? && rc != UNKNOWN_SESSION_ID && !m.timerInterim)
  }

  /** The session that an accepted START creates. */
  function NewSession(m: Message, sessionId: string, timerId: string, interval: uint32): Session {
    Session(sessionId, m.ccfs, m.recordNumber, timerId, m.refreshTime, interval)
  }

  /** `on_ccf_response`, up to its first call of Chronos or of a store. */
  function Respond(t: Topology, h: Handler, accepted: bool, answered: uint32,
                   sessionId: string, rc: int): Handler
    requires h.site < |t.remotes|
  {
    var h' := h.(answered := h.answered + 1);
    var interval := Interval(h.msg, answered);
    if Arms(h.msg, accepted, rc, interval) then
      h'.(pc := Arming(interval, sessionId))
    else if accepted && h.msg.recordType.Start? then
      CreateFrom(t, h'.(msg := h.msg.(timerId := NO_TIMER)), 0,
                 NewSession(h.msg, sessionId, NO_TIMER, interval))
    else if !accepted && h.msg.recordType.Interim? && rc == UNKNOWN_SESSION_ID then
      PurgeFrom(t, h', 0)
    else
      Finish(h')
  }

  /** `send_cb`, as `Failover.PeerMessageSender` implements it. */
  function Answered(t: Topology, h: Handler, rc: int, interval: int32, sessionId: string): Handler
    requires h.site < |t.remotes| && h.pc.Waiting?
  {
    match Decide(h.pc.which, |h.msg.ccfs|, rc)
    case Report => Respond(t, h, rc == SUCCESS, ToUnsigned(interval), sessionId, rc)
    case Resend => h.(pc := Sending(h.pc.which + 1))
    case GiveUp => Respond(t, h, false, 0, "", rc)
  }

  /** The timer id that goes into the Chronos request: a START always POSTs. */
  function OldTimer(m: Message): string {
    if m.recordType.Start? then NO_TIMER else m.timerId
  }

  /** Chronos answered: a request that fails leaves the timer id as it was. */
  function Armed(t: Topology, h: Handler, reply: Option<string>): Handler
    requires h.site < |t.remotes| && h.pc.Arming?
  {
    var timerId := if reply.Some? then reply.value else OldTimer(h.msg);
    if h.msg.recordType.Start? then
      CreateFrom(t, h.(msg := h.msg.(timerId := timerId)), 0,
                 NewSession(h.msg, h.pc.sessionId, timerId, h.pc.interval))
    else if timerId != h.msg.timerId then
      RetimeFrom(t, h, 0, timerId)
    else
      Finish(h)
  }

  lemma ResumeInRange(t: Topology, h: Handler, r: Replica, up: bool)
    requires Sited(t) && InRange(t, h) && AtStore(h)
    ensures InRange(t, Resume(t, h, r, up))
  {
    match h.pc {
      case FindLocal =>
      case FindRemote(_) =>
      case WriteLocal(_, _) =>
      case ReadRemote(_, _) =>
      case WriteRemote(_, _, _, _) =>
      case EraseLocal(_, _, _) =>
      case RemoveRemote(_, _) =>
      case Creating(_, _) =>
      case Purging(_) =>
      case RetimeRead(_, _) =>
      case RetimeWrite(_, _, _, _) =>
    }
  }

  lemma AnsweredInRange(t: Topology, h: Handler, rc: int, interval: int32, sessionId: string)
    requires InRange(t, h) && h.pc.Waiting?
    ensures InRange(t, Answered(t, h, rc, interval, sessionId))
  {
  }

  lemma ArmedInRange(t: Topology, h: Handler, reply: Option<string>)
    requires InRange(t, h) && h.pc.Arming?
    ensures InRange(t, Armed(t, h, reply))
  {
  }

  lemma EffectSound(h: Handler, r: Replica, up: bool)
    requires AtStore(h) && Sound(r)
    ensures Sound(Effect(h, r, up))
  {
  }

  /** No transition moves a handler to another site or makes its message another
      request; once `handle` is done with it, neither its CCFs nor its refresh
      time, record number or session id change. */
  predicate Keeps(h: Handler, h': Handler) {
    && h'.site == h.site && h'.msg.recordType == h.msg.recordType
    && h'.msg.ref == h.msg.ref && h'.msg.timerInterim == h.msg.timerInterim
    && (!InHandle(h.pc) ==>
          && h'.msg.ccfs == h.msg.ccfs && h'.msg.refreshTime == h.msg.refreshTime
          && h'.msg.recordNumber == h.msg.recordNumber && h'.msg.sessionId == h.msg.sessionId)
  }

  lemma ResumeKeeps(t: Topology, h: Handler, r: Replica, up: bool)
    requires Sited(t) && InRange(t, h) && AtStore(h)
    ensures Keeps(h, Resume(t, h, r, up))
  {
  }

  lemma AnsweredKeeps(t: Topology, h: Handler, rc: int, interval: int32, sessionId: string)
    requires InRange(t, h) && h.pc.Waiting?
    ensures Keeps(h, Answered(t, h, rc, interval, sessionId))
  {
  }

  lemma ArmedKeeps(t: Topology, h: Handler, reply: Option<string>)
    requires InRange(t, h) && h.pc.Arming?
    ensures Keeps(h, Armed(t, h, reply))
  {
  }
}
