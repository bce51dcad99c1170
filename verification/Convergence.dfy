/** Multi-site convergence: however INTERIMs, timer updates and duplicate
    STARTs interleave at any number of sites, no increment is lost and none is
    made twice on any replica. */
module Convergence {
  import opened Wrappers
  import opened Uint32
  import opened Accounting
  import opened Replicas
  import opened HandlerMachine
  import opened Failover
  import opened Protocol
  import opened Provenance
  import opened CasDiscipline

  /** Stores answer, nothing is lost, and nobody deletes the session. */
  predicate Benign(l: Label) {
    match l
    case Arrive(_, m) => !m.recordType.Stop?
    case Access(_, up) => up
    case Answer(_, rc, _, _) => rc != UNKNOWN_SESSION_ID
    case Lose(_) => false
    case _ => true
  }

  /** This INTERIM handler has incremented the replica of this site. */
  predicate Committed(t: Topology, h: Handler, site: nat)
    requires InRange(t, h)
  {
    && h.msg.recordType.Interim?
    && match h.pc
       case FindLocal | FindRemote(_) | WriteLocal(_, _) => false
       case ReadRemote(k, _) => site == h.site || site in Remotes(t, h.site)[..k]
       case WriteRemote(k, _, _, _) => site == h.site || site in Remotes(t, h.site)[..k]
       case Finished => h.answered == 1
       case _ => true
  }

  predicate AllInRange(t: Topology, hs: seq<Handler>) {
    forall k :: 0 <= k < |hs| ==> InRange(t, hs[k])
  }

  /** How many handlers have. */
  function CommitCount(t: Topology, hs: seq<Handler>, site: nat): nat
    requires AllInRange(t, hs)
  {
    if hs == [] then 0 else
      var last := hs[|hs| - 1];
      CommitCount(t, hs[..|hs| - 1], site) + if Committed(t, last, site) then 1 else 0
  }

  function Interims(hs: seq<Handler>): nat {
    if hs == [] then 0 else
      Interims(hs[..|hs| - 1]) + if hs[|hs| - 1].msg.recordType.Interim? then 1 else 0
  }

  lemma {:induction false} CommitsUpdate(t: Topology, hs: seq<Handler>, k: nat, h: Handler, site: nat)
    requires k < |hs| && InRange(t, h) && AllInRange(t, hs)
    ensures AllInRange(t, hs[k := h])
    ensures CommitCount(t, hs[k := h], site)
            == CommitCount(t, hs, site) - (if Committed(t, hs[k], site) then 1 else 0)
               + (if Committed(t, h, site) then 1 else 0)
  {
    var n := |hs| - 1;
    if k == n {
      assert hs[k := h][..n] == hs[..n];
    } else {
      assert hs[k := h][..n] == hs[..n][k := h];
      CommitsUpdate(t, hs[..n], k, h, site);
    }
  }

  /** The session is present on this replica and will be kept there by every write. */
  predicate Settled(r: Replica) {
    Holds(r) && Expiry(Current(r).refreshTime) > 0
  }

  /** Nothing that would remove or re-create the session is under way. */
  predicate Calm(h: Handler) {
    && !h.msg.recordType.Stop?
    && Owned(h) && Tidy(h)
    && match h.pc
       case FindRemote(_) | Purging(_) => false
       case WriteLocal(_, cas) => cas != 0
       case WriteRemote(_, _, _, cas) => cas != 0
       case Finished => h.answered == 1
       case _ => true
  }

  /** Every replica has counted from `base` exactly the handlers that have committed there. */
  ghost predicate Steady(t: Topology, s: System, base: seq<nat>)
    requires Shaped(t, s)
  {
    && Complete(t) && |base| == |s.replicas|
    && AllDisciplined(t, s)
    && (forall k :: 0 <= k < |s.handlers| ==> Calm(s.handlers[k]))
    && AllCount(t, s.replicas, s.handlers, base)
  }

  predicate Counts(r: Replica, height: nat) {
    Settled(r) && Current(r).recordNumber == Wrap(height)
  }

  /** The access increments the target replica for the handler's INTERIM. */
  predicate Increments(h: Handler, r: Replica) {
    (h.pc.WriteLocal? || h.pc.WriteRemote?) && Matches(r, h.pc.cas)
  }

  lemma AccessCounts(t: Topology, rs: seq<Replica>, h: Handler, height: nat)
    requires Sited(t) && |rs| == |t.remotes| && InRange(t, h) && AtStore(h)
    requires Calm(h) && Disciplined(t, rs, h) && Sound(rs[Target(t, h)])
    requires Counts(rs[Target(t, h)], height)
    ensures var r := rs[Target(t, h)];
            Counts(Effect(h, r, true), height + if Increments(h, r) then 1 else 0)
  {
  }

  lemma AccessCalm(t: Topology, h: Handler, r: Replica)
    requires Sited(t) && InRange(t, h) && AtStore(h)
    requires Calm(h) && Settled(r) && Sound(r)
    ensures Calm(Resume(t, h, r, true))
  {
    ResumeOwned(t, h, r, true);
  }

  lemma AccessCommits(t: Topology, h: Handler, r: Replica, site: nat)
    requires Sited(t) && InRange(t, h) && AtStore(h) && site < |t.remotes|
    requires ListsOthers(Remotes(t, h.site), h.site, |t.remotes|)
    requires Calm(h) && Settled(r)
    ensures InRange(t, Resume(t, h, r, true))
    ensures Committed(t, Resume(t, h, r, true), site)
            == (Committed(t, h, site) || (site == Target(t, h) && Increments(h, r)))
    ensures site == Target(t, h) && Increments(h, r) ==> !Committed(t, h, site)
  {
    ResumeInRange(t, h, r, true);
    var remotes := Remotes(t, h.site);
    assert site != h.site ==> site in remotes;
    if h.pc.WriteRemote? {
      assert remotes[..h.pc.next + 1] == remotes[..h.pc.next] + [remotes[h.pc.next]];
      assert h.pc.next + 1 == |remotes| ==> remotes[..h.pc.next + 1] == remotes;
    }
  }

  /** The replica of any site, after an access of handler `k` to the replica `i`. */
  lemma AccessCountsAt(t: Topology, rs: seq<Replica>, hs: seq<Handler>, k: nat, i: nat,
                       base: seq<nat>, site: nat)
    requires Sited(t) && AllInRange(t, hs) && |base| == |rs| == |t.remotes|
    requires k < |hs| && ListsOthers(Remotes(t, hs[k].site), hs[k].site, |t.remotes|)
    requires AtStore(hs[k]) && i == Target(t, hs[k]) && site < |rs|
    requires Calm(hs[k]) && Disciplined(t, rs, hs[k]) && Sound(rs[i])
    requires Counts(rs[i], base[i] + CommitCount(t, hs, i))
    requires Counts(rs[site], base[site] + CommitCount(t, hs, site))
    ensures var h' := Resume(t, hs[k], rs[i], true);
            && InRange(t, h')
            && AllInRange(t, hs[k := h'])
            && Counts(rs[i := Effect(hs[k], rs[i], true)][site], base[site] + CommitCount(t, hs[k := h'], site))
  {
    var h' := Resume(t, hs[k], rs[i], true);
    AccessCounts(t, rs, hs[k], base[i] + CommitCount(t, hs, i));
    AccessCommits(t, hs[k], rs[i], site);
    CommitsUpdate(t, hs, k, h', site);
  }

  ghost predicate AllCount(t: Topology, rs: seq<Replica>, hs: seq<Handler>, base: seq<nat>)
    requires AllInRange(t, hs) && |base| == |rs|
  {
    forall i :: 0 <= i < |rs| ==> Counts(rs[i], base[i] + CommitCount(t, hs, i))
  }

  lemma AccessAllCount(t: Topology, rs: seq<Replica>, hs: seq<Handler>, k: nat, i: nat, base: seq<nat>)
    requires Sited(t) && AllInRange(t, hs) && |base| == |rs| == |t.remotes|
    requires k < |hs| && ListsOthers(Remotes(t, hs[k].site), hs[k].site, |t.remotes|)
    requires AtStore(hs[k]) && i == Target(t, hs[k])
    requires Calm(hs[k]) && Disciplined(t, rs, hs[k]) && Sound(rs[i]) && AllCount(t, rs, hs, base)
    ensures var h' := Resume(t, hs[k], rs[i], true);
            && Calm(h') && InRange(t, h') && AllInRange(t, hs[k := h'])
            && AllCount(t, rs[i := Effect(hs[k], rs[i], true)], hs[k := h'], base)
  {
    AccessCalm(t, hs[k], rs[i]);
    ResumeInRange(t, hs[k], rs[i], true);
    var rs' := rs[i := Effect(hs[k], rs[i], true)];
    var hs' := hs[k := Resume(t, hs[k], rs[i], true)];
    forall j | 0 <= j < |rs|
      ensures Counts(rs'[j], base[j] + CommitCount(t, hs', j))
    {
      AccessCountsAt(t, rs, hs, k, i, base, j);
    }
  }

  /** A step that changes handler `k` and one replica and leaves all replicas counted. */
  lemma StepSteady(t: Topology, s: System, s': System, k: nat, base: seq<nat>)
    requires Shaped(t, s) && Steady(t, s, base) && Shaped(t, s') && AllDisciplined(t, s')
    requires k < |s.handlers| == |s'.handlers| && s'.handlers == s.handlers[k := s'.handlers[k]]
    requires Calm(s'.handlers[k]) && AllCount(t, s'.replicas, s'.handlers, base)
    ensures Steady(t, s', base)
  {
  }

  /** A step that only moves one handler between states in which it has committed equally. */
  lemma MoveSteady(t: Topology, s: System, s': System, k: nat, base: seq<nat>)
    requires Shaped(t, s) && Steady(t, s, base) && Shaped(t, s')
    requires k < |s.handlers| && s'.replicas == s.replicas
    requires |s'.handlers| == |s.handlers| && s'.handlers == s.handlers[k := s'.handlers[k]]
    requires AllDisciplined(t, s') && Calm(s'.handlers[k])
    requires forall i :: 0 <= i < |t.remotes| ==> Committed(t, s'.handlers[k], i) == Committed(t, s.handlers[k], i)
    ensures Steady(t, s', base)
  {
    forall j | 0 <= j < |s.replicas|
      ensures Counts(s'.replicas[j], base[j] + CommitCount(t, s'.handlers, j))
    {
      assert Counts(s.replicas[j], base[j] + CommitCount(t, s.handlers, j));
      CommitsUpdate(t, s.handlers, k, s'.handlers[k], j);
    }
  }

  /** A step that adds a handler which has committed nothing. */
  lemma SpawnSteady(t: Topology, s: System, s': System, h: Handler, base: seq<nat>)
    requires Shaped(t, s) && Steady(t, s, base) && Shaped(t, s')
    requires s'.replicas == s.replicas && s'.handlers == s.handlers + [h]
    requires AllDisciplined(t, s') && Calm(h) && InRange(t, h)
    requires forall i :: 0 <= i < |t.remotes| ==> !Committed(t, h, i)
    ensures Steady(t, s', base)
  {
    assert s'.handlers[..|s'.handlers| - 1] == s.handlers;
    forall j | 0 <= j < |s.replicas|
      ensures Counts(s'.replicas[j], base[j] + CommitCount(t, s'.handlers, j))
    {
      assert Counts(s.replicas[j], base[j] + CommitCount(t, s.handlers, j));
    }
  }

  lemma AnsweredCalm(t: Topology, h: Handler, rc: int, interval: int32, sessionId: string, site: nat)
    requires InRange(t, h) && h.pc.Waiting? && Calm(h) && rc != UNKNOWN_SESSION_ID
    ensures var h' := Answered(t, h, rc, interval, sessionId);
            InRange(t, h') && Calm(h') && Committed(t, h', site) == Committed(t, h, site)
  {
    AnsweredInRange(t, h, rc, interval, sessionId);
    AnsweredOwned(t, h, rc, interval, sessionId);
  }

  lemma ArmedCalm(t: Topology, h: Handler, reply: Option<string>, site: nat)
    requires InRange(t, h) && h.pc.Arming? && Calm(h)
    ensures var h' := Armed(t, h, reply);
            InRange(t, h') && Calm(h') && Committed(t, h', site) == Committed(t, h, site)
  {
    ArmedInRange(t, h, reply);
    ArmedOwned(t, h, reply);
  }

  lemma AccessSteady(t: Topology, s: System, k: nat, base: seq<nat>)
    requires Shaped(t, s) && Steady(t, s, base) && Enabled(t, s, Access(k, true))
    ensures Shaped(t, Apply(t, s, Access(k, true))) && Steady(t, Apply(t, s, Access(k, true)), base)
  {
    ApplyDisciplined(t, s, Access(k, true));
    var h := s.handlers[k];
    assert Calm(h) && Disciplined(t, s.replicas, h) && ListsOthers(t.remotes[h.site], h.site, |t.remotes|);
    AccessAllCount(t, s.replicas, s.handlers, k, Target(t, h), base);
    StepSteady(t, s, Apply(t, s, Access(k, true)), k, base);
  }

  lemma AnswerSteady(t: Topology, s: System, k: nat, rc: int, interval: int32, sessionId: string, base: seq<nat>)
    requires Shaped(t, s) && Steady(t, s, base) && Enabled(t, s, Answer(k, rc, interval, sessionId))
    requires rc != UNKNOWN_SESSION_ID
    ensures var s' := Apply(t, s, Answer(k, rc, interval, sessionId));
            Shaped(t, s') && Steady(t, s', base)
  {
    ApplyDisciplined(t, s, Answer(k, rc, interval, sessionId));
    forall i: nat {
      AnsweredCalm(t, s.handlers[k], rc, interval, sessionId, i);
    }
    AnsweredCalm(t, s.handlers[k], rc, interval, sessionId, 0);
    MoveSteady(t, s, Apply(t, s, Answer(k, rc, interval, sessionId)), k, base);
  }

  lemma ChronosSteady(t: Topology, s: System, k: nat, reply: Option<string>, armed: Option<string>, base: seq<nat>)
    requires Shaped(t, s) && Steady(t, s, base) && Enabled(t, s, Chronos(k, reply, armed))
    ensures var s' := Apply(t, s, Chronos(k, reply, armed));
            Shaped(t, s') && Steady(t, s', base)
  {
    ApplyDisciplined(t, s, Chronos(k, reply, armed));
    forall i: nat {
      ArmedCalm(t, s.handlers[k], reply, i);
    }
    ArmedCalm(t, s.handlers[k], reply, 0);
    MoveSteady(t, s, Apply(t, s, Chronos(k, reply, armed)), k, base);
  }

  lemma ApplySteady(t: Topology, s: System, l: Label, base: seq<nat>)
    requires Shaped(t, s) && Steady(t, s, base) && Enabled(t, s, l) && Benign(l)
    ensures Shaped(t, Apply(t, s, l)) && Steady(t, Apply(t, s, l), base)
  {
    ApplyDisciplined(t, s, l);
    var s' := Apply(t, s, l);
    match l {
      case Access(k, _) =>
        AccessSteady(t, s, k, base);
      case Arrive(site, m) =>
        SpawnSteady(t, s, s', Begin(site, m), base);
      case Pop(i, site) =>
        SpawnSteady(t, s, s', Begin(site, TimerMessage(s.timers[i].ref)), base);
      case Answer(k, rc, interval, sessionId) =>
        AnswerSteady(t, s, k, rc, interval, sessionId, base);
      case Chronos(k, reply, armed) =>
        ChronosSteady(t, s, k, reply, armed, base);
      case Send(k) =>
        MoveSteady(t, s, s', k, base);
      case CancelTimer(k) =>
        MoveSteady(t, s, s', k, base);
      case Lose(_) =>
    }
  }

  lemma {:induction false} RunSteady(t: Topology, s: System, ls: seq<Label>, base: seq<nat>)
    requires Shaped(t, s) && Runs(t, s, ls) && Steady(t, s, base)
    requires forall i :: 0 <= i < |ls| ==> Benign(ls[i])
    ensures Steady(t, After(t, s, ls), base)
    decreases |ls|
  {
    if ls != [] {
      ApplySteady(t, s, ls[0], base);
      RunSteady(t, Apply(t, s, ls[0]), ls[1..], base);
    }
  }

  lemma {:induction false} AllCommitted(t: Topology, hs: seq<Handler>, site: nat)
    requires AllInRange(t, hs)
    requires forall k :: 0 <= k < |hs| ==> hs[k].pc.Finished? && hs[k].answered == 1
    ensures CommitCount(t, hs, site) == Interims(hs)
  {
    if hs != [] {
      AllCommitted(t, hs[..|hs| - 1], site);
    }
  }

  ghost function Numbers(s: System): (base: seq<nat>)
    requires forall i :: 0 <= i < |s.replicas| ==> Holds(s.replicas[i])
    ensures |base| == |s.replicas|
    ensures forall i :: 0 <= i < |s.replicas| ==> base[i] == Current(s.replicas[i]).recordNumber
  {
    seq(|s.replicas|, i requires 0 <= i < |s.replicas| => Current(s.replicas[i]).recordNumber)
  }

  /** The session is everywhere, and no handler is at work yet. */
  ghost predicate Start(t: Topology, s: System) {
    && Complete(t) && Shaped(t, s) && s.handlers == []
    && forall i :: 0 <= i < |s.replicas| ==> Settled(s.replicas[i])
  }

  lemma StartSteady(t: Topology, s: System)
    requires Start(t, s)
    ensures Steady(t, s, Numbers(s))
  {
    forall i | 0 <= i < |s.replicas|
      ensures Counts(s.replicas[i], Numbers(s)[i] + CommitCount(t, s.handlers, i))
    {
      assert Settled(s.replicas[i]);
      assert CommitCount(t, [], i) == 0;
    }
  }

  /** `s'` is where a benign run from a start leads. */
  ghost predicate BenignRun(t: Topology, s: System, ls: seq<Label>, s': System) {
    && Start(t, s) && Runs(t, s, ls) && s' == After(t, s, ls)
    && forall i :: 0 <= i < |ls| ==> Benign(ls[i])
  }

  lemma StaysSteady(t: Topology, s: System, ls: seq<Label>, s': System)
    requires BenignRun(t, s, ls, s')
    ensures Shaped(t, s') && Steady(t, s', Numbers(s))
  {
    StartSteady(t, s);
    RunSteady(t, s, ls, Numbers(s));
  }

  lemma SteadyAt(t: Topology, s: System, base: seq<nat>, site: nat)
    requires Shaped(t, s) && Steady(t, s, base) && site < |t.remotes|
    ensures Holds(s.replicas[site])
    ensures Current(s.replicas[site]).recordNumber == Wrap(base[site] + CommitCount(t, s.handlers, site))
  {
    assert Counts(s.replicas[site], base[site] + CommitCount(t, s.handlers, site));
  }

  /** In every benign run each replica holds the session, and its record number
      is its starting value plus the number of INTERIM handlers that have
      committed on it, modulo 2^32. */
  lemma Converges(t: Topology, s: System, ls: seq<Label>, s': System, site: nat)
    requires BenignRun(t, s, ls, s') && site < |t.remotes|
    ensures Shaped(t, s') && Holds(s'.replicas[site])
    ensures Current(s'.replicas[site]).recordNumber == Wrap(Numbers(s)[site] + CommitCount(t, s'.handlers, site))
  {
    StaysSteady(t, s, ls, s');
    SteadyAt(t, s', Numbers(s), site);
  }

  /** Once every handler has finished, each replica has counted every INTERIM
      there was, exactly once; replicas that agreed at the start agree again. */
  lemma ConvergesAtRest(t: Topology, s: System, ls: seq<Label>, s': System, site: nat)
    requires BenignRun(t, s, ls, s') && site < |t.remotes|
    requires forall k :: 0 <= k < |s'.handlers| ==> s'.handlers[k].pc.Finished?
    ensures Shaped(t, s') && Holds(s'.replicas[site])
    ensures Current(s'.replicas[site]).recordNumber == Wrap(Numbers(s)[site] + Interims(s'.handlers))
  {
    Converges(t, s, ls, s', site);
    StaysSteady(t, s, ls, s');
    forall k | 0 <= k < |s'.handlers|
      ensures s'.handlers[k].answered == 1
    {
      assert Calm(s'.handlers[k]);
    }
    AllCommitted(t, s'.handlers, site);
  }
}
