/** The loop through Chronos: Ralf arms a timer, the timer pops, and the pop
    comes back to Ralf as another INTERIM. The loop ends because a timer-driven
    INTERIM never arms a timer. */
module TimerLoop {
  import opened Wrappers
  import opened Uint32
  import opened Accounting
  import opened Replicas
  import opened HandlerMachine
  import opened Protocol
  import opened Provenance
  import RetryTermination

  /** Whenever Ralf is about to call Chronos, the interval is positive and
      shorter than the time to repeat for, and the message is a START or an
      INTERIM that did not come from a timer. */
  lemma TimersAreArmedByRequests(t: Topology, s: System, ls: seq<Label>, k: nat)
    requires Initial(t, s) && Shaped(t, s) && Runs(t, s, ls)
    requires k < |After(t, s, ls).handlers| && After(t, s, ls).handlers[k].pc.Arming?
    ensures var h := After(t, s, ls).handlers[k];
            && 0 < h.pc.interval < h.msg.refreshTime
            && (h.msg.recordType.Start? || (h.msg.recordType.Interim? && !h.msg.timerInterim))
  {
    RunOwned(t, s, ls);
    assert Tidy(After(t, s, ls).handlers[k]);
  }

  /** The handler may still send an ACR to this many CCFs. */
  function SendsLeft(h: Handler, most: nat): int {
    match h.pc
    case Sending(w) => most - w
    case Waiting(w) => most - w - 1
    case pc => if Unanswered(pc) then most else 0
  }

  predicate MayArm(h: Handler) {
    && !(h.msg.recordType.Interim? && h.msg.timerInterim)
    && (Unanswered(h.pc) || h.pc.Arming?)
  }

  function Sends(hs: seq<Handler>, most: nat): int {
    if hs == [] then 0 else Sends(hs[..|hs| - 1], most) + SendsLeft(hs[|hs| - 1], most)
  }

  function ArmsLeft(hs: seq<Handler>): nat {
    if hs == [] then 0 else ArmsLeft(hs[..|hs| - 1]) + if MayArm(hs[|hs| - 1]) then 1 else 0
  }

  function Pops(ts: seq<Timer>): nat {
    if ts == [] then 0 else ts[0].pops + Pops(ts[1..])
  }

  /** Handlers there are or may still come to be without another request. */
  function Visits(s: System): nat {
    |s.handlers| + Pops(s.timers) + LIMIT * ArmsLeft(s.handlers)
  }

  lemma {:induction false} SumsUpdate(hs: seq<Handler>, k: nat, h: Handler, most: nat)
    requires k < |hs|
    ensures Sends(hs[k := h], most) == Sends(hs, most) - SendsLeft(hs[k], most) + SendsLeft(h, most)
    ensures ArmsLeft(hs[k := h])
            == ArmsLeft(hs) - (if MayArm(hs[k]) then 1 else 0) + (if MayArm(h) then 1 else 0)
  {
    var n := |hs| - 1;
    if k == n {
      assert hs[k := h][..n] == hs[..n];
    } else {
      assert hs[k := h][..n] == hs[..n][k := h];
      SumsUpdate(hs[..n], k, h, most);
    }
  }

  lemma SumsAppend(hs: seq<Handler>, h: Handler, most: nat)
    ensures Sends(hs + [h], most) == Sends(hs, most) + SendsLeft(h, most)
    ensures ArmsLeft(hs + [h]) == ArmsLeft(hs) + if MayArm(h) then 1 else 0
  {
    assert (hs + [h])[..|hs|] == hs;
  }

  lemma {:induction false} PopsUpdate(ts: seq<Timer>, i: nat, timer: Timer)
    requires i < |ts|
    ensures Pops(ts[i := timer]) == Pops(ts) - ts[i].pops + timer.pops
  {
    if i == 0 {
      assert ts[i := timer][1..] == ts[1..];
    } else {
      assert ts[i := timer][1..] == ts[1..][i - 1 := timer];
      PopsUpdate(ts[1..], i - 1, timer);
    }
  }

  lemma {:induction false} PopsAppend(ts: seq<Timer>, timer: Timer)
    ensures Pops(ts + [timer]) == Pops(ts) + timer.pops
  {
    if ts == [] {
      assert ts + [timer] == [timer];
      assert Pops([timer][1..]) == 0;
    } else {
      assert (ts + [timer])[1..] == ts[1..] + [timer];
      PopsAppend(ts[1..], timer);
    }
  }

  lemma {:induction false} DisarmPops(ts: seq<Timer>, id: string)
    ensures Pops(Disarm(ts, id)) <= Pops(ts)
  {
    if ts != [] {
      DisarmPops(ts[1..], id);
      assert Disarm(ts, id)[1..] == Disarm(ts[1..], id);
    }
  }

  lemma RearmPops(ts: seq<Timer>, h: Handler, armed: Option<string>)
    requires h.pc.Arming?
    ensures Pops(Rearm(ts, h, armed)) <= Pops(ts) + LIMIT
  {
    if armed.Some? && h.pc.interval != 0 {
      DisarmPops(ts, armed.value);
      var timer := Timer(armed.value, h.msg.ref, PopsWithin(h.msg.refreshTime, h.pc.interval));
      PopsAppend(Disarm(ts, armed.value), timer);
    }
  }

  lemma ResumeLeft(t: Topology, h: Handler, r: Replica, up: bool, most: nat)
    requires Sited(t) && InRange(t, h) && AtStore(h)
    ensures SendsLeft(Resume(t, h, r, up), most) <= SendsLeft(h, most)
    ensures MayArm(Resume(t, h, r, up)) ==> MayArm(h)
  {
  }

  lemma AnsweredLeft(t: Topology, h: Handler, rc: int, interval: int32, sessionId: string, most: nat)
    requires InRange(t, h) && h.pc.Waiting? && h.pc.which < |h.msg.ccfs| <= most
    ensures SendsLeft(Answered(t, h, rc, interval, sessionId), most) <= SendsLeft(h, most)
    ensures MayArm(Answered(t, h, rc, interval, sessionId)) ==> MayArm(h)
  {
  }

  lemma ArmedLeft(t: Topology, h: Handler, reply: Option<string>, most: nat)
    requires InRange(t, h) && h.pc.Arming? && Tidy(h)
    ensures SendsLeft(Armed(t, h, reply), most) == SendsLeft(h, most) == 0
    ensures MayArm(h) && !MayArm(Armed(t, h, reply))
  {
  }

  ghost predicate Ready(s: System, most: nat) {
    Accountable(s, most) && AllOwned(s)
  }

  /** ACRs sent and still to be sent. */
  function Budget(s: System, most: nat): int {
    |s.acrs| + Sends(s.handlers, most)
  }

  /** The step costs nothing: it starts no handler and spends what it uses. */
  predicate Spends(s: System, s': System, most: nat) {
    && |s'.handlers| == |s.handlers|
    && Visits(s') <= Visits(s)
    && Budget(s', most) <= Budget(s, most)
  }

  /** A handler moves without more sends or timers ahead of it. */
  lemma MoveSpends(s: System, s': System, k: nat, most: nat)
    requires k < |s.handlers| == |s'.handlers| && s'.handlers == s.handlers[k := s'.handlers[k]]
    requires |s'.acrs| + SendsLeft(s'.handlers[k], most) <= |s.acrs| + SendsLeft(s.handlers[k], most)
    requires Pops(s'.timers) + (if MayArm(s'.handlers[k]) then LIMIT else 0)
             <= Pops(s.timers) + if MayArm(s.handlers[k]) then LIMIT else 0
    ensures Spends(s, s', most)
  {
    SumsUpdate(s.handlers, k, s'.handlers[k], most);
  }

  lemma AccessSpends(t: Topology, s: System, k: nat, up: bool, most: nat)
    requires Shaped(t, s) && Enabled(t, s, Access(k, up))
    ensures Spends(s, Apply(t, s, Access(k, up)), most)
  {
    var h := s.handlers[k];
    ResumeLeft(t, h, s.replicas[Target(t, h)], up, most);
    MoveSpends(s, Apply(t, s, Access(k, up)), k, most);
  }

  lemma SendSpends(t: Topology, s: System, k: nat, most: nat)
    requires Shaped(t, s) && Enabled(t, s, Send(k)) && Ready(s, most)
    ensures Spends(s, Apply(t, s, Send(k)), most)
  {
    assert TracedHandler(s.accepted, most, s.handlers[k]);
    MoveSpends(s, Apply(t, s, Send(k)), k, most);
  }

  lemma AnswerSpends(t: Topology, s: System, k: nat, rc: int, interval: int32, sessionId: string, most: nat)
    requires Shaped(t, s) && Enabled(t, s, Answer(k, rc, interval, sessionId)) && Ready(s, most)
    ensures Spends(s, Apply(t, s, Answer(k, rc, interval, sessionId)), most)
  {
    assert TracedHandler(s.accepted, most, s.handlers[k]);
    AnsweredLeft(t, s.handlers[k], rc, interval, sessionId, most);
    MoveSpends(s, Apply(t, s, Answer(k, rc, interval, sessionId)), k, most);
  }

  lemma ChronosSpends(t: Topology, s: System, k: nat, reply: Option<string>, armed: Option<string>, most: nat)
    requires Shaped(t, s) && Enabled(t, s, Chronos(k, reply, armed)) && Ready(s, most)
    ensures Spends(s, Apply(t, s, Chronos(k, reply, armed)), most)
  {
    ArmedLeft(t, s.handlers[k], reply, most);
    RearmPops(s.timers, s.handlers[k], armed);
    MoveSpends(s, Apply(t, s, Chronos(k, reply, armed)), k, most);
  }

  lemma CancelSpends(t: Topology, s: System, k: nat, most: nat)
    requires Shaped(t, s) && Enabled(t, s, CancelTimer(k))
    ensures Spends(s, Apply(t, s, CancelTimer(k)), most)
  {
    DisarmPops(s.timers, s.handlers[k].pc.found.timerId);
    MoveSpends(s, Apply(t, s, CancelTimer(k)), k, most);
  }

  /** A new handler has `most` ACRs ahead of it, and may arm a timer unless one started it. */
  lemma SpawnSpends(s: System, s': System, site: nat, m: Message, most: nat)
    requires s'.handlers == s.handlers + [Begin(site, m)] && s'.acrs == s.acrs
    ensures Budget(s', most) == Budget(s, most) + most
    ensures Visits(s') <= Visits(s) - Pops(s.timers) + Pops(s'.timers) + 1
                          + if m.recordType.Interim? && m.timerInterim then 0 else LIMIT
  {
    SumsAppend(s.handlers, Begin(site, m), most);
  }

  lemma PopSpends(t: Topology, s: System, i: nat, site: nat, most: nat)
    requires Shaped(t, s) && Enabled(t, s, Pop(i, site))
    ensures var s' := Apply(t, s, Pop(i, site));
            Visits(s') <= Visits(s) && Budget(s', most) == Budget(s, most) + most
  {
    var timer := s.timers[i];
    PopsUpdate(s.timers, i, timer.(pops := timer.pops - 1));
    SpawnSpends(s, Apply(t, s, Pop(i, site)), site, TimerMessage(timer.ref), most);
  }

  /** Only a request from the network raises the number of visits, and only a
      new handler the number of ACRs. */
  lemma ApplySpends(t: Topology, s: System, l: Label, most: nat)
    requires Shaped(t, s) && Enabled(t, s, l) && Ready(s, most)
    ensures var s' := Apply(t, s, l);
            && |s.handlers| <= |s'.handlers| <= |s.handlers| + 1
            && Visits(s') <= Visits(s) + (if l.Arrive? then 1 + LIMIT else 0)
            && Budget(s', most) <= Budget(s, most) + if |s'.handlers| > |s.handlers| then most else 0
  {
    match l {
      case Arrive(site, m) =>
        SpawnSpends(s, Apply(t, s, l), site, m, most);
      case Access(k, up) =>
        AccessSpends(t, s, k, up, most);
      case Send(k) =>
        SendSpends(t, s, k, most);
      case Answer(k, rc, interval, sessionId) =>
        AnswerSpends(t, s, k, rc, interval, sessionId, most);
      case Chronos(k, reply, armed) =>
        ChronosSpends(t, s, k, reply, armed, most);
      case CancelTimer(k) =>
        CancelSpends(t, s, k, most);
      case Pop(i, site) =>
        PopSpends(t, s, i, site, most);
      case Lose(_) =>
    }
  }

  function Arrivals(ls: seq<Label>): nat {
    if ls == [] then 0 else (if ls[0].Arrive? then 1 else 0) + Arrivals(ls[1..])
  }

  lemma ApplyReady(t: Topology, s: System, l: Label, most: nat)
    requires Shaped(t, s) && Enabled(t, s, l) && Ready(s, most)
    requires l.Arrive? ==> |l.msg.ccfs| <= most
    ensures Shaped(t, Apply(t, s, l)) && Ready(Apply(t, s, l), most)
  {
    ApplyShaped(t, s, l);
    ApplyAccountable(t, s, l, most);
    ApplyOwned(t, s, l);
  }

  lemma {:induction false} RunVisits(t: Topology, s: System, ls: seq<Label>, most: nat)
    requires Shaped(t, s) && Runs(t, s, ls) && Ready(s, most) && Fits(ls, most)
    ensures Visits(After(t, s, ls)) <= Visits(s) + Arrivals(ls) * (1 + LIMIT)
    decreases |ls|
  {
    if ls != [] {
      ApplyReady(t, s, ls[0], most);
      ApplySpends(t, s, ls[0], most);
      OneMore(Arrivals(ls[1..]), 1 + LIMIT);
      RunVisits(t, Apply(t, s, ls[0]), ls[1..], most);
    }
  }

  lemma {:induction false} RunSends(t: Topology, s: System, ls: seq<Label>, most: nat)
    requires Shaped(t, s) && Runs(t, s, ls) && Ready(s, most) && Fits(ls, most)
    requires |s.acrs| + Sends(s.handlers, most) <= |s.handlers| * most
    ensures var s' := After(t, s, ls);
            |s'.acrs| + Sends(s'.handlers, most) <= |s'.handlers| * most
    decreases |ls|
  {
    if ls != [] {
      ApplyReady(t, s, ls[0], most);
      ApplySpends(t, s, ls[0], most);
      OneMore(|s.handlers|, most);
      RunSends(t, Apply(t, s, ls[0]), ls[1..], most);
    }
  }

  lemma OneMore(n: nat, most: nat)
    ensures (n + 1) * most == n * most + most
  {
  }

  lemma {:induction false} SendsNonNegative(accepted: set<Origin>, hs: seq<Handler>, most: nat)
    requires forall k :: 0 <= k < |hs| ==> TracedHandler(accepted, most, hs[k])
    ensures Sends(hs, most) >= 0
  {
    if hs != [] {
      SendsNonNegative(accepted, hs[..|hs| - 1], most);
      assert TracedHandler(accepted, most, hs[|hs| - 1]);
    }
  }

  /** Whole-loop termination: however often timers are updated and pop, and at
      whatever sites, the number of messages handled is bounded by the number
      of requests that arrived from the network times the number of pops a
      32-bit time allows, and the number of ACRs sent by that times the length
      of the longest CCF list. */
  lemma FinitelyManyAcrs(t: Topology, s: System, ls: seq<Label>, most: nat)
    requires Initial(t, s) && Shaped(t, s) && Runs(t, s, ls) && Fits(ls, most)
    ensures |After(t, s, ls).handlers| <= Arrivals(ls) * (1 + LIMIT)
    ensures |After(t, s, ls).acrs| <= (Arrivals(ls) * (1 + LIMIT)) * most
  {
    RunVisits(t, s, ls, most);
    RunSends(t, s, ls, most);
    RunAccountable(t, s, ls, most);
    var s' := After(t, s, ls);
    SendsNonNegative(s'.accepted, s'.handlers, most);
    RetryTermination.MoreTimes(|s'.handlers|, Arrivals(ls) * (1 + LIMIT), most);
  }
}
