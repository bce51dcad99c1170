/** Whether a timer pop still finds the session. Every write renews the time to
    live of a replica's record to twice the refresh time; every pop starts an
    INTERIM that writes to all replicas. Here the steps of `Protocol` happen in
    time, and a record is lost only when its time to live is over. */
module RecordLifetime {
  import opened Uint32
  import opened Accounting
  import opened Replicas
  import opened HandlerMachine
  import opened Failover
  import opened Protocol
  import opened CasDiscipline
  import opened Convergence

  /** A moment at which the timer starts to run anew, having popped or having been
      renewed: the INTERIM that goes with it, and when the next pop is due. */
  datatype Tick = Tick(who: nat, due: int)

  /** `written` is when each replica was last written to, `began` when each
      message arrived. */
  datatype Timed = Timed(sys: System, now: int, written: seq<int>, began: seq<int>, ticks: seq<Tick>)

  /** The first pop comes by the time `first` and every other within `interval`
      of the one before; no timer is armed with a longer interval. `handle` is
      done with the INTERIM of a pop after `delay`, and an INTERIM that renews
      the timer does so at most `latency` after its arrival. */
  datatype Pace = Pace(first: int, interval: nat, delay: nat, latency: nat)

  datatype Moment = Moment(time: int, step: Label)

  predicate Sized(c: Timed) {
    |c.written| == |c.sys.replicas| && |c.began| == |c.sys.handlers|
  }

  /** The time by which the timer pops or is renewed again after tick number `j`. */
  function Due(c: Timed, p: Pace, j: nat): int
    requires j <= |c.ticks|
  {
    if j == 0 then p.first else c.ticks[j - 1].due
  }

  /** The timer and the handlers keep this pace up to the given time. */
  predicate Punctual(c: Timed, p: Pace, time: int)
    requires Sized(c)
  {
    && time <= Due(c, p, |c.ticks|)
    && forall j :: 0 <= j < |c.ticks| && c.ticks[j].who < |c.began| && InHandle(c.sys.handlers[c.ticks[j].who].pc) ==>
         time <= c.began[c.ticks[j].who] + p.delay
  }

  /** When the time to live of the record of this replica is over. */
  function Expires(c: Timed, i: nat): int
    requires Sized(c) && i < |c.written| && Holds(c.sys.replicas[i])
  {
    c.written[i] + Expiry(Current(c.sys.replicas[i]).refreshTime)
  }

  /** The step is an INTERIM's POST or PUT, and Chronos has started the timer. */
  predicate Renewal(c: Timed, l: Label) {
    && l.Chronos? && l.armed.Some? && l.who < |c.sys.handlers|
    && c.sys.handlers[l.who].pc.Arming? && c.sys.handlers[l.who].msg.recordType.Interim?
  }

  /** INTERIMs, timer updates and duplicate STARTs at any sites, with reachable
      stores; a record may be lost once its time to live is over. */
  ghost predicate Timely(t: Topology, c: Timed, p: Pace, e: Moment)
    requires Shaped(t, c.sys) && Sized(c)
  {
    && Enabled(t, c.sys, e.step) && c.now <= e.time && Punctual(c, p, e.time)
    && (Renewal(c, e.step) ==>
          c.sys.handlers[e.step.who].pc.interval <= p.interval && e.time <= c.began[e.step.who] + p.latency)
    && if e.step.Lose? then Holds(c.sys.replicas[e.step.site]) ==> Expires(c, e.step.site) <= e.time
       else Benign(e.step)
  }

  function Elapse(t: Topology, c: Timed, p: Pace, e: Moment): (c': Timed)
    requires Shaped(t, c.sys) && Enabled(t, c.sys, e.step) && Sized(c)
    ensures Sized(c')
  {
    var sys' := Apply(t, c.sys, e.step);
    Timed(sys', e.time,
          seq(|c.written|, i requires 0 <= i < |c.written| =>
                if sys'.replicas[i] != c.sys.replicas[i] then e.time else c.written[i]),
          if e.step.Arrive? || e.step.Pop? then c.began + [e.time] else c.began,
          if e.step.Pop? then c.ticks + [Tick(|c.sys.handlers|, e.time + p.interval)]
          else if Renewal(c, e.step) then
            c.ticks + [Tick(e.step.who, e.time + c.sys.handlers[e.step.who].pc.interval)]
          else c.ticks)
  }

  ghost predicate Proceeds(t: Topology, c: Timed, p: Pace, es: seq<Moment>)
    requires Shaped(t, c.sys) && Sized(c)
    decreases |es|
  {
    es == [] ||
    (&& Timely(t, c, p, es[0])
     && (ApplyShaped(t, c.sys, es[0].step); Proceeds(t, Elapse(t, c, p, es[0]), p, es[1..])))
  }

  ghost function Later(t: Topology, c: Timed, p: Pace, es: seq<Moment>): (c': Timed)
    requires Shaped(t, c.sys) && Sized(c) && Proceeds(t, c, p, es)
    ensures Shaped(t, c'.sys) && Sized(c')
    decreases |es|
  {
    if es == [] then c else
      ApplyShaped(t, c.sys, es[0].step);
      Later(t, Elapse(t, c, p, es[0]), p, es[1..])
  }

  /** The record of this replica outlives the first pop, and from each tick the
      pop that follows it. */
  predicate Lasting(c: Timed, p: Pace, i: nat)
    requires Sized(c) && i < |c.written|
  {
    && Settled(c.sys.replicas[i])
    && p.first + p.delay < Expires(c, i)
    && p.latency + p.interval + p.delay < Expiry(Current(c.sys.replicas[i]).refreshTime)
  }

  /** Handler `k`, if it has committed on a replica, has renewed its record. */
  predicate Renews(t: Topology, c: Timed, k: nat, i: nat)
    requires Sized(c) && AllInRange(t, c.sys.handlers) && k < |c.began| && i < |c.written|
  {
    Committed(t, c.sys.handlers[k], i) ==> c.began[k] <= c.written[i]
  }

  predicate GoodTick(c: Timed, p: Pace, j: nat)
    requires Sized(c) && j < |c.ticks|
  {
    && c.ticks[j].who < |c.began| && c.sys.handlers[c.ticks[j].who].msg.recordType.Interim?
    && c.began[c.ticks[j].who] <= Due(c, p, j)
    && c.ticks[j].due <= c.began[c.ticks[j].who] + p.latency + p.interval
  }

  ghost predicate Alive(t: Topology, c: Timed, p: Pace, base: seq<nat>) {
    && Shaped(t, c.sys) && Steady(t, c.sys, base) && Sized(c)
    && (forall i :: 0 <= i < |c.written| ==> c.written[i] <= c.now && Lasting(c, p, i))
    && (forall k :: 0 <= k < |c.began| ==> c.began[k] <= c.now)
    && (forall j :: 0 <= j < |c.ticks| ==> GoodTick(c, p, j))
    && (forall k, i :: 0 <= k < |c.began| && 0 <= i < |c.written| ==> Renews(t, c, k, i))
  }

  // ----- no record expires

  /** Goes back from tick number `j` to the last one whose INTERIM has committed on this replica. */
  lemma {:induction false} Unexpired(t: Topology, c: Timed, p: Pace, base: seq<nat>, time: int, i: nat, j: nat)
    requires Alive(t, c, p, base) && Punctual(c, p, time) && i < |c.written|
    requires j <= |c.ticks| && time <= Due(c, p, j) + p.delay
    ensures time < Expires(c, i)
  {
    assert Lasting(c, p, i);
    if j > 0 {
      var k := c.ticks[j - 1].who;
      assert GoodTick(c, p, j - 1) && Renews(t, c, k, i) && Calm(c.sys.handlers[k]);
      if !Committed(t, c.sys.handlers[k], i) {
        assert InHandle(c.sys.handlers[k].pc);
        Unexpired(t, c, p, base, time, i, j - 1);
      }
    }
  }

  // ----- every step keeps the records alive

  lemma AccessRefreshes(t: Topology, rs: seq<Replica>, h: Handler)
    requires Sited(t) && |rs| == |t.remotes| && InRange(t, h) && AtStore(h)
    requires Calm(h) && Disciplined(t, rs, h) && Sound(rs[Target(t, h)]) && Settled(rs[Target(t, h)])
    ensures var r := rs[Target(t, h)];
            var r' := Effect(h, r, true);
            && Settled(r') && Current(r').refreshTime == Current(r).refreshTime
            && (Increments(h, r) ==> r' != r)
  {
  }

  lemma StepLasting(t: Topology, c: Timed, p: Pace, base: seq<nat>, e: Moment, i: nat)
    requires Alive(t, c, p, base) && Timely(t, c, p, e) && !e.step.Lose? && i < |c.written|
    ensures Lasting(Elapse(t, c, p, e), p, i) && Elapse(t, c, p, e).written[i] <= e.time
  {
    assert Lasting(c, p, i);
    if e.step.Access? {
      var h := c.sys.handlers[e.step.who];
      assert Calm(h) && Disciplined(t, c.sys.replicas, h);
      var k := Target(t, h);
      assert Lasting(c, p, k);
      AccessRefreshes(t, c.sys.replicas, h);
    }
  }

  /** A handler that commits on a replica changes it. */
  lemma NewCommitWrites(t: Topology, s: System, l: Label, base: seq<nat>, k: nat, i: nat)
    requires Shaped(t, s) && Steady(t, s, base) && Enabled(t, s, l) && Benign(l)
    requires k < |s.handlers| && i < |s.replicas|
    ensures var s' := Apply(t, s, l);
            && Shaped(t, s') && |s'.handlers| >= |s.handlers|
            && (Committed(t, s'.handlers[k], i) ==> Committed(t, s.handlers[k], i) || s'.replicas[i] != s.replicas[i])
  {
    ApplyShaped(t, s, l);
    var h := s.handlers[k];
    assert Calm(h);
    if l.Access? && l.who == k {
      var r := s.replicas[Target(t, h)];
      assert ListsOthers(t.remotes[h.site], h.site, |t.remotes|) && Disciplined(t, s.replicas, h);
      assert Counts(r, base[Target(t, h)] + CommitCount(t, s.handlers, Target(t, h)));
      AccessCommits(t, h, r, i);
      AccessRefreshes(t, s.replicas, h);
    } else if l.Answer? && l.who == k {
      AnsweredCalm(t, h, l.rc, l.interval, l.sessionId, i);
    } else if l.Chronos? && l.who == k {
      ArmedCalm(t, h, l.reply, i);
    }
  }

  lemma StepTicks(t: Topology, c: Timed, p: Pace, base: seq<nat>, e: Moment, j: nat)
    requires Alive(t, c, p, base) && Timely(t, c, p, e)
    requires j < |Elapse(t, c, p, e).ticks|
    ensures GoodTick(Elapse(t, c, p, e), p, j)
  {
    if j < |c.ticks| {
      assert GoodTick(c, p, j);
      ApplyKeeps(t, c.sys, e.step, c.ticks[j].who);
    } else if Renewal(c, e.step) {
      ApplyKeeps(t, c.sys, e.step, e.step.who);
    }
  }

  lemma StepRenews(t: Topology, c: Timed, p: Pace, base: seq<nat>, e: Moment, k: nat, i: nat)
    requires Alive(t, c, p, base) && Timely(t, c, p, e) && !e.step.Lose?
    requires k < |Elapse(t, c, p, e).began| && i < |c.written|
    ensures var c' := Elapse(t, c, p, e);
            Shaped(t, c'.sys) && Renews(t, c', k, i)
  {
    ApplyShaped(t, c.sys, e.step);
    if k < |c.began| {
      assert Renews(t, c, k, i);
      NewCommitWrites(t, c.sys, e.step, base, k, i);
    }
  }

  /** A step of a punctual run loses no record and keeps all of them alive. */
  lemma StepAlive(t: Topology, c: Timed, p: Pace, base: seq<nat>, e: Moment)
    requires Alive(t, c, p, base) && Timely(t, c, p, e)
    ensures !e.step.Lose? && Alive(t, Elapse(t, c, p, e), p, base)
  {
    if e.step.Lose? {
      assert Lasting(c, p, e.step.site);
      Unexpired(t, c, p, base, e.time, e.step.site, |c.ticks|);
      assert false;
    }
    var c' := Elapse(t, c, p, e);
    ApplySteady(t, c.sys, e.step, base);
    forall i | 0 <= i < |c'.written|
      ensures c'.written[i] <= c'.now && Lasting(c', p, i)
    {
      StepLasting(t, c, p, base, e, i);
    }
    forall j | 0 <= j < |c'.ticks|
      ensures GoodTick(c', p, j)
    {
      StepTicks(t, c, p, base, e, j);
    }
    forall k, i | 0 <= k < |c'.began| && 0 <= i < |c'.written|
      ensures Renews(t, c', k, i)
    {
      StepRenews(t, c, p, base, e, k, i);
    }
  }

  lemma {:induction false} RunAlive(t: Topology, c: Timed, p: Pace, base: seq<nat>, es: seq<Moment>)
    requires Alive(t, c, p, base) && Proceeds(t, c, p, es)
    ensures Alive(t, Later(t, c, p, es), p, base)
    ensures forall e :: e in es ==> !e.step.Lose?
    decreases |es|
  {
    if es != [] {
      StepAlive(t, c, p, base, es[0]);
      RunAlive(t, Elapse(t, c, p, es[0]), p, base, es[1..]);
    }
  }

  /** The session is everywhere, whatever handlers are under way; its timer is
      armed and has not popped yet; and every record lasts beyond the first pop
      and its handling, and likewise from one pop or renewal to the next. */
  ghost predicate Launched(t: Topology, c: Timed, p: Pace, base: seq<nat>) {
    && Shaped(t, c.sys) && Steady(t, c.sys, base) && c.ticks == [] && Sized(c)
    && (forall k :: 0 <= k < |c.began| ==> c.began[k] <= c.now)
    && (forall k, i :: 0 <= k < |c.began| && 0 <= i < |c.written| ==> Renews(t, c, k, i))
    && forall i :: 0 <= i < |c.written| ==> c.written[i] <= c.now && Lasting(c, p, i)
  }

  /** Record outlives its timer: however INTERIMs, timer renewals and duplicate
      STARTs interleave with the pops at any number of sites, as long as the
      pace is kept no record ever expires; so every INTERIM, whether it comes
      from a pop or from the network, finds the session at the first store it
      asks, and is never dropped. */
  lemma EveryPopFindsTheRecord(t: Topology, c: Timed, p: Pace, base: seq<nat>, es: seq<Moment>)
    requires Launched(t, c, p, base) && Proceeds(t, c, p, es)
    ensures forall e :: e in es ==> !e.step.Lose?
    ensures var c' := Later(t, c, p, es);
            && (forall i :: 0 <= i < |c'.sys.replicas| ==> Holds(c'.sys.replicas[i]))
            && (forall k :: 0 <= k < |c'.sys.handlers| ==>
                  var h := c'.sys.handlers[k];
                  !h.pc.FindRemote? && (h.pc.Finished? ==> h.answered == 1))
  {
    RunAlive(t, c, p, base, es);
    var c' := Later(t, c, p, es);
    forall i | 0 <= i < |c'.sys.replicas|
      ensures Holds(c'.sys.replicas[i])
    {
      assert Lasting(c', p, i);
    }
    forall k | 0 <= k < |c'.sys.handlers|
      ensures var h := c'.sys.handlers[k];
              !h.pc.FindRemote? && (h.pc.Finished? ==> h.answered == 1)
    {
      assert Calm(c'.sys.handlers[k]);
    }
  }

  /** A START arms the timer and then writes the records: with a refresh time
      below 2^30, and the interval and the total handling delay each below it,
      they last. */
  lemma StartLasts(c: Timed, p: Pace, i: nat, armed: int)
    requires Sized(c) && i < |c.written| && Holds(c.sys.replicas[i])
    requires var refresh := Replicas.Current(c.sys.replicas[i]).refreshTime;
             p.interval < refresh < 0x4000_0000 && p.latency + p.delay < refresh
    requires armed <= c.written[i] && p.first <= armed + p.interval
    ensures Lasting(c, p, i)
  {
    Replicas.Kept(Replicas.Current(c.sys.replicas[i]).refreshTime);
  }

  // ----- timers that INTERIMs arm

  /** The timer that this answer to an INTERIM arms, if any, pops before the
      record written `lag` before the arming has expired. */
  predicate PopsInTime(t: Topology, h: Handler, s: Session, lag: nat,
                       accepted: bool, answered: uint32, sessionId: string, rc: int)
    requires h.site < |t.remotes|
  {
    var asked := Respond(t, Fill(h, s), accepted, answered, sessionId, rc);
    asked.pc.Arming? ==> lag + asked.pc.interval < Expiry(s.refreshTime)
  }

  /** The refresh time in force: that of the INTERIM, else the stored one. */
  function RefreshOf(h: Handler, s: Session): uint32 {
    if h.msg.refreshTime == 0 then s.refreshTime else h.msg.refreshTime
  }

  /** An INTERIM may bring a refresh time of its own, which governs the timer but
      is never stored: with an answered interval just below it the timer is
      armed, and the record has expired when it first pops. */
  lemma LongerRefreshOutlivesRecord(t: Topology, h: Handler, s: Session, lag: nat)
    requires h.site < |t.remotes| && h.msg.recordType.Interim? && !h.msg.timerInterim
    requires 1 < RefreshOf(h, s) && Expiry(s.refreshTime) < lag + RefreshOf(h, s)
    ensures Respond(t, Fill(h, s), true, RefreshOf(h, s) - 1, "", SUCCESS).pc == Arming(RefreshOf(h, s) - 1, "")
    ensures !PopsInTime(t, h, s, lag, true, RefreshOf(h, s) - 1, "", SUCCESS)
  {
  }

  /** For every INTERIM and stored session: whatever is answered, the timer pops
      within the life of the record, exactly if the refresh time in force plus
      the lag is at most the record's time to live; a refresh time of at most 1
      arms nothing. A request whose refresh time is not above the stored one,
      itself below 2^30, meets that while the lag is not above it either. */
  lemma FirstPopInTimeIff(t: Topology, h: Handler, s: Session, lag: nat)
    requires h.site < |t.remotes| && h.msg.recordType.Interim? && !h.msg.timerInterim
    ensures (forall accepted, answered: uint32, sessionId, rc ::
               PopsInTime(t, h, s, lag, accepted, answered, sessionId, rc))
            <==> RefreshOf(h, s) <= 1 || lag + RefreshOf(h, s) <= Expiry(s.refreshTime)
    ensures h.msg.refreshTime <= s.refreshTime < 0x4000_0000 && lag <= s.refreshTime ==>
              RefreshOf(h, s) <= 1 || lag + RefreshOf(h, s) <= Expiry(s.refreshTime)
  {
    if 1 < RefreshOf(h, s) && Expiry(s.refreshTime) < lag + RefreshOf(h, s) {
      LongerRefreshOutlivesRecord(t, h, s, lag);
    }
    Replicas.Kept(s.refreshTime);
  }
}
