/** Any number of sites and handlers working on the replicas of one key. Every
    store, Chronos and Diameter interaction is one step, and the label of a
    step says what the environment chose: which handler moves, whether the
    store is reachable, what the CDF answers, which timer pops. */
module Protocol {
  import opened Wrappers
  import opened Uint32
  import opened Accounting
  import opened CStrings
  import opened Replicas
  import opened HandlerMachine
  import opened Failover

  /** What a session keeps from the START that created it. */
  datatype Origin = Origin(sessionId: string, ccfs: seq<string>, refreshTime: uint32, interimInterval: uint32)

  /** A Chronos timer that will still pop `pops` times. */
  datatype Timer = Timer(id: string, ref: CallRef, pops: nat)

  /** `acrs` logs the requests sent, `accepted` the origins of the STARTs that a
      CDF accepted; `fault` is set by a send beyond the end of the CCF list. */
  datatype System = System(
    replicas: seq<Replica>,
    handlers: seq<Handler>,
    timers: seq<Timer>,
    acrs: seq<Acr>,
    accepted: set<Origin>,
    fault: bool)

  datatype Label =
    | Arrive(site: nat, msg: Message)
    | Access(who: nat, up: bool)
    | Send(who: nat)
    | Answer(who: nat, rc: int, interval: int32, sessionId: string)
    | Chronos(who: nat, reply: Option<string>, armed: Option<string>)
    | CancelTimer(who: nat)
    | Pop(timer: nat, site: nat)
    | Lose(site: nat)

  /** What `parse_body` guarantees of the messages it hands over. */
  predicate Parsed(m: Message) {
    && m == NewMessage(m.ref, m.recordType, m.timerInterim, m.refreshTime, m.ccfs)
    && (m.ccfs != [] <==> m.recordType.Start? || m.recordType.Event?)
  }

  ghost predicate Initial(t: Topology, s: System) {
    && Sited(t)
    && |s.replicas| == |t.remotes|
    && (forall i :: 0 <= i < |s.replicas| ==> s.replicas[i].entry.None?)
    && s.handlers == [] && s.timers == [] && s.acrs == [] && s.accepted == {} && !s.fault
  }

  /** Sites, replicas and handlers fit together. */
  ghost predicate Shaped(t: Topology, s: System) {
    && Sited(t)
    && |s.replicas| == |t.remotes|
    && (forall i :: 0 <= i < |s.replicas| ==> Sound(s.replicas[i]))
    && (forall k :: 0 <= k < |s.handlers| ==> InRange(t, s.handlers[k]))
  }

  ghost predicate Enabled(t: Topology, s: System, l: Label)
    requires Shaped(t, s)
  {
    match l
    case Arrive(site, m) => site < |t.remotes| && Parsed(m)
    case Access(k, _) => k < |s.handlers| && AtStore(s.handlers[k])
    case Send(k) => k < |s.handlers| && s.handlers[k].pc.Sending?
    case Answer(k, _, _, _) => k < |s.handlers| && s.handlers[k].pc.Waiting?
    case Chronos(k, _, _) => k < |s.handlers| && s.handlers[k].pc.Arming?
    case CancelTimer(k) => k < |s.handlers| && s.handlers[k].pc.Cancel?
    case Pop(i, site) => i < |s.timers| && s.timers[i].pops > 0 && site < |t.remotes|
    case Lose(site) => site < |t.remotes|
  }

  /** A POST, PUT or DELETE of timer `id` ends whatever timer had that id. */
  function Disarm(ts: seq<Timer>, id: string): (r: seq<Timer>)
    ensures |r| == |ts|
    ensures forall i :: 0 <= i < |ts| ==> r[i] == if ts[i].id == id then ts[i].(pops := 0) else ts[i]
  {
    if ts == [] then [] else [if ts[0].id == id then ts[0].(pops := 0) else ts[0]] + Disarm(ts[1..], id)
  }

  /** How many times a timer of this interval pops before its time is over. */
  function PopsWithin(repeatFor: nat, interval: nat): (pops: nat)
    requires interval > 0
    ensures pops <= repeatFor
    ensures pops * interval <= repeatFor < (pops + 1) * interval
  {
    if repeatFor < interval then 0 else 1 + PopsWithin(repeatFor - interval, interval)
  }

  function Rearm(ts: seq<Timer>, h: Handler, armed: Option<string>): seq<Timer>
    requires h.pc.Arming?
  {
    if armed.None? || h.pc.interval == 0 then ts
    else Disarm(ts, armed.value) + [Timer(armed.value, h.msg.ref, PopsWithin(h.msg.refreshTime, h.pc.interval))]
  }

  function OriginOf(s: Session): Origin {
    Origin(s.sessionId, s.ccfs, s.refreshTime, s.interimInterval)
  }

  /** The origin of a START accepted by this answer, as the stores will show it:
      the answered session id and interim interval, the latter replaced by the
      refresh time if it is 0, and the CCFs and the refresh time of the request. */
  function AcceptedBy(h: Handler, rc: int, interval: int32, sessionId: string): set<Origin> {
    if h.msg.recordType.Start? && rc == 2001 then
      {Origin(CStr(sessionId), CStrs(h.msg.ccfs), h.msg.refreshTime,
              if interval == 0 then h.msg.refreshTime else if interval < 0 then interval + 0x1_0000_0000 else interval)}
    else
      {}
  }

  function Apply(t: Topology, s: System, l: Label): System
    requires Shaped(t, s) && Enabled(t, s, l)
  {
    match l
    case Arrive(site, m) => s.(handlers := s.handlers + [Begin(site, m)])
    case Access(k, up) =>
      var h := s.handlers[k];
      var i := Target(t, h);
      s.(handlers := s.handlers[k := Resume(t, h, s.replicas[i], up)],
         replicas := s.replicas[i := Effect(h, s.replicas[i], up)])
    case Send(k) =>
      var h := s.handlers[k];
      var w := h.pc.which;
      if w < |h.msg.ccfs| then
        s.(handlers := s.handlers[k := h.(pc := Waiting(w))],
           acrs := s.acrs + [AcrTo(h.msg, h.msg.ccfs[w])])
      else
        s.(fault := true)
    case Answer(k, rc, interval, sessionId) =>
      var h := s.handlers[k];
      s.(handlers := s.handlers[k := Answered(t, h, rc, interval, sessionId)],
         accepted := s.accepted + AcceptedBy(h, rc, interval, sessionId))
    case Chronos(k, reply, armed) =>
      var h := s.handlers[k];
      s.(handlers := s.handlers[k := Armed(t, h, reply)], timers := Rearm(s.timers, h, armed))
    case CancelTimer(k) =>
      var h := s.handlers[k];
      s.(handlers := s.handlers[k := Fill(h, h.pc.found)], timers := Disarm(s.timers, h.pc.found.timerId))
    case Pop(i, site) =>
      var timer := s.timers[i];
      s.(timers := s.timers[i := timer.(pops := timer.pops - 1)],
         handlers := s.handlers + [Begin(site, TimerMessage(timer.ref))])
    case Lose(site) =>
      s.(replicas := s.replicas[site := s.replicas[site].(entry := None)])
  }

  /** The answer that the sender hands on when a transaction ends like this. */
  function AnswerTo(k: nat, o: Outcome): Label {
    Answer(k, CodeOf(o), IntervalOf(o), SessionIdOf(o))
  }

  /** What the end of a transaction does to its handler: without delivery the next
      CCF is tried, or "unable to deliver" is reported if there is none; any
      other answer is reported with what it says. */
  lemma OutcomeAnswers(t: Topology, s: System, k: nat, o: Outcome)
    requires Shaped(t, s) && Enabled(t, s, AnswerTo(k, o)) && s.handlers[k].pc.which < |s.handlers[k].msg.ccfs|
    ensures var h, h' := s.handlers[k], Apply(t, s, AnswerTo(k, o)).handlers[k];
            if !Undelivered(o) then
              exists r: Report :: Tells(r, o) && h' == Respond(t, h, r.accepted, ToUnsigned(r.interval), r.sessionId, r.rc)
            else if h.pc.which + 1 < |h.msg.ccfs| then h' == h.(pc := Sending(h.pc.which + 1))
            else h' == Respond(t, h, false, 0, "", 3002)
  {
    if !Undelivered(o) {
      var r := Report.Report(CodeOf(o) == SUCCESS, IntervalOf(o), SessionIdOf(o), CodeOf(o));
      assert Tells(r, o);
    }
  }

  /** A send gives the Diameter stack the ACR of the message for the next CCF. */
  lemma SendsTheMessage(t: Topology, s: System, k: nat)
    requires Shaped(t, s) && Enabled(t, s, Send(k)) && s.handlers[k].pc.which < |s.handlers[k].msg.ccfs|
    ensures var h, s' := s.handlers[k], Apply(t, s, Send(k));
            && |s'.acrs| == |s.acrs| + 1 && s'.acrs[..|s.acrs|] == s.acrs
            && IsAcrOf(s'.acrs[|s.acrs|], h.msg, h.msg.ccfs[h.pc.which])
            && s'.handlers[k] == h.(pc := Waiting(h.pc.which))
  {
  }

  /** The stores and handlers after a step: an access concerns one handler and the
      store it is at, an arrival begins a handler at its site, a loss empties one
      store, and nothing else touches a store. */
  lemma StoresAfter(t: Topology, s: System, l: Label)
    requires Shaped(t, s) && Enabled(t, s, l)
    ensures var s' := Apply(t, s, l);
            match l
            case Access(k, up) =>
              && |s'.handlers| == |s.handlers| && |s'.replicas| == |s.replicas|
              && (forall j :: 0 <= j < |s.handlers| && j != k ==> s'.handlers[j] == s.handlers[j])
              && forall i :: 0 <= i < |s.replicas| && i != Target(t, s.handlers[k]) ==> s'.replicas[i] == s.replicas[i]
            case Arrive(site, m) => s'.replicas == s.replicas && s'.handlers == s.handlers + [Begin(site, m)]
            case Lose(site) =>
              && s'.handlers == s.handlers
              && s'.replicas == s.replicas[site := Replica(None, s.replicas[site].clock)]
            case _ => s'.replicas == s.replicas
  {
  }

  /** The timers after a step: a timer that Chronos starts runs for as many
      intervals as fit its repeat-for time and will call back for the call of the
      message; starting or deleting a timer ends whatever had that id; and a pop
      hands Ralf an INTERIM of its own. */
  lemma TimersAfter(t: Topology, s: System, l: Label)
    requires Shaped(t, s) && Enabled(t, s, l)
    ensures var s' := Apply(t, s, l);
            match l
            case Chronos(k, _, Some(id)) =>
              var h := s.handlers[k];
              h.pc.interval > 0 ==>
                && |s'.timers| == |s.timers| + 1 && s'.timers[..|s.timers|] == Disarm(s.timers, id)
                && var timer := s'.timers[|s.timers|];
                   && timer.id == id && timer.ref == h.msg.ref
                   && timer.pops * h.pc.interval <= h.msg.refreshTime < (timer.pops + 1) * h.pc.interval
            case CancelTimer(k) => s'.timers == Disarm(s.timers, s.handlers[k].pc.found.timerId)
            case Pop(i, site) =>
              var timer := s.timers[i];
              && s'.timers == s.timers[i := timer.(pops := timer.pops - 1)]
              && s'.handlers == s.handlers + [Begin(site, NewMessage(timer.ref, Interim, true, 0, []))]
            case _ => s'.timers == s.timers
  {
  }

  lemma ApplyShaped(t: Topology, s: System, l: Label)
    requires Shaped(t, s) && Enabled(t, s, l)
    ensures Shaped(t, Apply(t, s, l))
  {
    match l {
      case Arrive(_, _) =>
      case Access(k, up) =>
        var h := s.handlers[k];
        var i := Target(t, h);
        ResumeInRange(t, h, s.replicas[i], up);
        EffectSound(h, s.replicas[i], up);
      case Send(_) =>
      case Answer(k, rc, interval, sessionId) =>
        AnsweredInRange(t, s.handlers[k], rc, interval, sessionId);
      case Chronos(k, reply, _) =>
        ArmedInRange(t, s.handlers[k], reply);
      case CancelTimer(_) =>
      case Pop(_, _) =>
      case Lose(_) =>
    }
  }

  lemma ApplyKeeps(t: Topology, s: System, l: Label, k: nat)
    requires Shaped(t, s) && Enabled(t, s, l) && k < |s.handlers|
    ensures |s.handlers| <= |Apply(t, s, l).handlers| && Keeps(s.handlers[k], Apply(t, s, l).handlers[k])
  {
    match l {
      case Arrive(_, _) =>
      case Access(j, up) =>
        ResumeKeeps(t, s.handlers[j], s.replicas[Target(t, s.handlers[j])], up);
      case Send(_) =>
      case Answer(j, rc, interval, sessionId) =>
        AnsweredKeeps(t, s.handlers[j], rc, interval, sessionId);
      case Chronos(j, reply, _) =>
        ArmedKeeps(t, s.handlers[j], reply);
      case CancelTimer(_) =>
      case Pop(_, _) =>
      case Lose(_) =>
    }
  }

  /** The labels in `ls` can be taken one after the other from `s`. */
  ghost predicate Runs(t: Topology, s: System, ls: seq<Label>)
    requires Shaped(t, s)
    decreases |ls|
  {
    ls == [] ||
    (&& Enabled(t, s, ls[0])
     && (ApplyShaped(t, s, ls[0]); Runs(t, Apply(t, s, ls[0]), ls[1..])))
  }

  /** The state such a run ends in. */
  ghost function After(t: Topology, s: System, ls: seq<Label>): (r: System)
    requires Shaped(t, s) && Runs(t, s, ls)
    ensures Shaped(t, r)
    decreases |ls|
  {
    if ls == [] then s else ApplyShaped(t, s, ls[0]); After(t, Apply(t, s, ls[0]), ls[1..])
  }

  /** No START accesses a store in this run. */
  ghost predicate NoStartWrites(t: Topology, s: System, ls: seq<Label>)
    requires Shaped(t, s) && Runs(t, s, ls)
    decreases |ls|
  {
    ls == [] ||
    (&& !(ls[0].Access? && s.handlers[ls[0].who].msg.recordType.Start?)
     && (ApplyShaped(t, s, ls[0]); NoStartWrites(t, Apply(t, s, ls[0]), ls[1..])))
  }
}
