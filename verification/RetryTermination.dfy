/** Retries after data contention: every failed write of a handler is paid for
    by another writer's successful one, and so handling ends. */
module RetryTermination {
  import opened Wrappers
  import opened Uint32
  import opened Accounting
  import opened Replicas
  import opened HandlerMachine
  import opened Protocol

  /** Stores are reachable and nothing is lost. */
  predicate Reachable(l: Label) {
    match l
    case Access(_, up) => up
    case Lose(_) => false
    case _ => true
  }

  /** Handlers whose CAS values always come from the store they are used on:
      a STOP at a site with remotes may use a remote CAS on the local store. */
  predicate Covered(t: Topology, h: Handler)
    requires h.site < |t.remotes|
  {
    && (h.msg.recordType.Stop? ==> Remotes(t, h.site) == [])
    && (h.pc.FindLocal? || h.pc.FindRemote? || h.pc.WriteLocal? || h.pc.EraseLocal? ==>
          h.msg.recordType.Interim? || h.msg.recordType.Stop?)
  }

  /** The handler's next write will fail unless somebody changes the store again. */
  predicate Stale(t: Topology, rs: seq<Replica>, h: Handler)
    requires Sited(t) && |rs| == |t.remotes| && InRange(t, h)
  {
    match h.pc
    case FindRemote(_) => rs[h.site].entry.Some?
    case WriteLocal(_, cas) => !Matches(rs[h.site], cas)
    case WriteRemote(k, _, _, cas) => !Matches(rs[Remotes(t, h.site)[k]], cas)
    case EraseLocal(_, cas, _) => !Matches(rs[h.site], cas)
    case _ => false
  }

  function Debt(t: Topology, rs: seq<Replica>, h: Handler): nat
    requires Sited(t) && |rs| == |t.remotes| && InRange(t, h)
  {
    h.failures + if Stale(t, rs, h) then 1 else 0
  }

  /** The step changes a store on behalf of somebody other than handler `k`. */
  predicate OthersWrite(t: Topology, s: System, l: Label, k: nat)
    requires Shaped(t, s) && Enabled(t, s, l)
  {
    l.Access? && l.who != k && Apply(t, s, l).replicas != s.replicas
  }

  ghost function OtherWrites(t: Topology, s: System, ls: seq<Label>, k: nat): nat
    requires Shaped(t, s) && Runs(t, s, ls)
    decreases |ls|
  {
    if ls == [] then 0 else
      ApplyShaped(t, s, ls[0]);
      (if OthersWrite(t, s, ls[0], k) then 1 else 0) + OtherWrites(t, Apply(t, s, ls[0]), ls[1..], k)
  }

  lemma OwnAccessPays(t: Topology, rs: seq<Replica>, h: Handler)
    requires Sited(t) && |rs| == |t.remotes| && InRange(t, h) && AtStore(h)
    requires AllClean(rs) && Covered(t, h) && Sound(rs[Target(t, h)])
    ensures var h' := Resume(t, h, rs[Target(t, h)], true);
            && InRange(t, h')
            && Covered(t, h')
            && Debt(t, rs[Target(t, h) := Effect(h, rs[Target(t, h)], true)], h') <= Debt(t, rs, h)
  {
    ResumeInRange(t, h, rs[Target(t, h)], true);
  }

  lemma AnsweredCovered(t: Topology, h: Handler, l: Label)
    requires InRange(t, h)
    requires (l.Answer? && h.pc.Waiting?) || (l.Chronos? && h.pc.Arming?)
    ensures var h' := if l.Answer? then Answered(t, h, l.rc, l.interval, l.sessionId) else Armed(t, h, l.reply);
            (Covered(t, h) ==> Covered(t, h')) && h'.failures == h.failures && h'.site == h.site
            && h'.accesses == h.accesses && !h'.pc.FindRemote? && !h'.pc.WriteLocal?
            && !h'.pc.WriteRemote? && !h'.pc.EraseLocal?
  {
  }

  lemma ApplyReadable(t: Topology, s: System, l: Label)
    requires Shaped(t, s) && Enabled(t, s, l) && AllClean(s.replicas)
    ensures AllClean(Apply(t, s, l).replicas)
  {
  }

  lemma ApplyPays(t: Topology, s: System, l: Label, k: nat)
    requires Shaped(t, s) && Enabled(t, s, l) && Reachable(l) && AllClean(s.replicas)
    requires k < |s.handlers| && Covered(t, s.handlers[k])
    ensures Shaped(t, Apply(t, s, l)) && k < |Apply(t, s, l).handlers|
    ensures Covered(t, Apply(t, s, l).handlers[k])
    ensures Debt(t, Apply(t, s, l).replicas, Apply(t, s, l).handlers[k])
            <= Debt(t, s.replicas, s.handlers[k]) + if OthersWrite(t, s, l, k) then 1 else 0
  {
    ApplyShaped(t, s, l);
    if l.Access? && l.who == k {
      OwnAccessPays(t, s.replicas, s.handlers[k]);
    } else if (l.Answer? || l.Chronos?) && l.who == k {
      AnsweredCovered(t, s.handlers[k], l);
    }
  }

  lemma {:induction false} RunPays(t: Topology, s: System, ls: seq<Label>, k: nat)
    requires Shaped(t, s) && Runs(t, s, ls) && AllClean(s.replicas)
    requires forall i :: 0 <= i < |ls| ==> Reachable(ls[i])
    requires k < |s.handlers| && Covered(t, s.handlers[k])
    ensures k < |After(t, s, ls).handlers|
    ensures Debt(t, After(t, s, ls).replicas, After(t, s, ls).handlers[k])
            <= Debt(t, s.replicas, s.handlers[k]) + OtherWrites(t, s, ls, k)
    decreases |ls|
  {
    if ls != [] {
      ApplyPays(t, s, ls[0], k);
      ApplyReadable(t, s, ls[0]);
      RunPays(t, Apply(t, s, ls[0]), ls[1..], k);
    }
  }

  // ----- store accesses

  /** Store accesses left in `handle` if no further write fails. */
  function Remaining(t: Topology, h: Handler): nat
    requires InRange(t, h)
  {
    var n := |Remotes(t, h.site)|;
    match h.pc
    case FindLocal => 3 * n + 2
    case FindRemote(k) => n - k + 2 * n + 1
    case WriteLocal(_, _) => 2 * n + 1
    case ReadRemote(k, _) => 2 * (n - k)
    case WriteRemote(k, _, _, _) => 2 * (n - k) - 1
    case EraseLocal(_, _, _) => 2 * n + 1
    case RemoveRemote(k, _) => n - k
    case _ => 0
  }

  predicate Paced(t: Topology, h: Handler)
    requires InRange(t, h)
  {
    var n := |Remotes(t, h.site)|;
    h.accesses + Remaining(t, h) <= 3 * n + 2 + h.failures * (n + 2)
  }

  lemma ResumePaced(t: Topology, h: Handler, r: Replica, up: bool)
    requires Sited(t) && InRange(t, h) && AtStore(h) && Paced(t, h)
    ensures InRange(t, Resume(t, h, r, up)) && Paced(t, Resume(t, h, r, up))
  {
    ResumeInRange(t, h, r, up);
    var n := |Remotes(t, h.site)|;
    assert (h.failures + 1) * (n + 2) == h.failures * (n + 2) + (n + 2);
  }

  /** A handler that leaves `handle` has no access left. */
  lemma MovePaced(t: Topology, h: Handler, h': Handler)
    requires InRange(t, h) && InRange(t, h') && Paced(t, h) && h'.site == h.site
    requires h'.failures == h.failures && h'.accesses == h.accesses && Remaining(t, h') == 0
    ensures Paced(t, h')
  {
  }

  lemma AnswerPaced(t: Topology, h: Handler, rc: int, interval: int32, sessionId: string)
    requires InRange(t, h) && h.pc.Waiting? && Paced(t, h)
    ensures var h' := Answered(t, h, rc, interval, sessionId);
            InRange(t, h') && Paced(t, h')
  {
    AnsweredInRange(t, h, rc, interval, sessionId);
    MovePaced(t, h, Answered(t, h, rc, interval, sessionId));
  }

  lemma ChronosPaced(t: Topology, h: Handler, reply: Option<string>)
    requires InRange(t, h) && h.pc.Arming? && Paced(t, h)
    ensures var h' := Armed(t, h, reply);
            InRange(t, h') && Paced(t, h')
  {
    ArmedInRange(t, h, reply);
    MovePaced(t, h, Armed(t, h, reply));
  }

  lemma ApplyPaced(t: Topology, s: System, l: Label, k: nat)
    requires Shaped(t, s) && Enabled(t, s, l) && k < |s.handlers| && Paced(t, s.handlers[k])
    ensures Shaped(t, Apply(t, s, l)) && k < |Apply(t, s, l).handlers| && Paced(t, Apply(t, s, l).handlers[k])
  {
    ApplyShaped(t, s, l);
    match l {
      case Arrive(_, _) =>
      case Access(j, up) =>
        if j == k {
          ResumePaced(t, s.handlers[k], s.replicas[Target(t, s.handlers[k])], up);
        }
      case Send(j) =>
        if j == k && s.handlers[k].pc.which < |s.handlers[k].msg.ccfs| {
          MovePaced(t, s.handlers[k], Apply(t, s, l).handlers[k]);
        }
      case Answer(j, rc, interval, sessionId) =>
        if j == k {
          AnswerPaced(t, s.handlers[k], rc, interval, sessionId);
        }
      case Chronos(j, reply, _) =>
        if j == k {
          ChronosPaced(t, s.handlers[k], reply);
        }
      case CancelTimer(j) =>
        if j == k {
          MovePaced(t, s.handlers[k], Apply(t, s, l).handlers[k]);
        }
      case Pop(_, _) =>
      case Lose(_) =>
    }
  }

  lemma {:induction false} RunPaced(t: Topology, s: System, ls: seq<Label>, k: nat)
    requires Shaped(t, s) && Runs(t, s, ls) && k < |s.handlers| && Paced(t, s.handlers[k])
    ensures k < |After(t, s, ls).handlers| && Paced(t, After(t, s, ls).handlers[k])
    decreases |ls|
  {
    if ls != [] {
      ApplyPaced(t, s, ls[0], k);
      RunPaced(t, Apply(t, s, ls[0]), ls[1..], k);
    }
  }

  // ----- the counters count what happens

  /** The step is a store access that handler `k` makes in `handle`. */
  predicate AccessesStore(s: System, l: Label, k: nat) {
    l.Access? && l.who == k && k < |s.handlers| && InHandle(s.handlers[k].pc)
  }

  /** The step is a write of handler `k` that fails because the record is not the one it read. */
  predicate Contends(t: Topology, s: System, l: Label, k: nat)
    requires Shaped(t, s) && Enabled(t, s, l)
  {
    && l.Access? && l.who == k && l.up
    && (s.handlers[k].pc.WriteLocal? || s.handlers[k].pc.WriteRemote? || s.handlers[k].pc.EraseLocal?)
    && !Matches(s.replicas[Target(t, s.handlers[k])], s.handlers[k].pc.cas)
  }

  /** How many store accesses of `handle` the handler makes in a run. */
  ghost function Accesses(t: Topology, s: System, ls: seq<Label>, k: nat): nat
    requires Shaped(t, s) && Runs(t, s, ls)
    decreases |ls|
  {
    if ls == [] then 0 else
      ApplyShaped(t, s, ls[0]);
      (if AccessesStore(s, ls[0], k) then 1 else 0) + Accesses(t, Apply(t, s, ls[0]), ls[1..], k)
  }

  /** How many contention failures it meets. */
  ghost function Contentions(t: Topology, s: System, ls: seq<Label>, k: nat): nat
    requires Shaped(t, s) && Runs(t, s, ls)
    decreases |ls|
  {
    if ls == [] then 0 else
      ApplyShaped(t, s, ls[0]);
      (if Contends(t, s, ls[0], k) then 1 else 0) + Contentions(t, Apply(t, s, ls[0]), ls[1..], k)
  }

  lemma ResumeCounts(t: Topology, s: System, k: nat, up: bool)
    requires Shaped(t, s) && Enabled(t, s, Access(k, up))
    ensures var h, h' := s.handlers[k], Apply(t, s, Access(k, up)).handlers[k];
            && h'.accesses == h.accesses + (if AccessesStore(s, Access(k, up), k) then 1 else 0)
            && h'.failures == h.failures + if Contends(t, s, Access(k, up), k) then 1 else 0
  {
  }

  lemma ApplyCounts(t: Topology, s: System, l: Label, k: nat)
    requires Shaped(t, s) && Enabled(t, s, l) && k < |s.handlers|
    ensures |s.handlers| <= |Apply(t, s, l).handlers|
    ensures var h, h' := s.handlers[k], Apply(t, s, l).handlers[k];
            && h'.accesses == h.accesses + (if AccessesStore(s, l, k) then 1 else 0)
            && h'.failures == h.failures + if Contends(t, s, l, k) then 1 else 0
  {
    match l {
      case Arrive(_, _) =>
      case Access(j, up) =>
        if j == k {
          ResumeCounts(t, s, k, up);
        }
      case Send(_) =>
      case Answer(j, rc, interval, sessionId) =>
        if j == k {
          AnsweredCovered(t, s.handlers[k], l);
        }
      case Chronos(j, reply, _) =>
        if j == k {
          AnsweredCovered(t, s.handlers[k], l);
        }
      case CancelTimer(_) =>
      case Pop(_, _) =>
      case Lose(_) =>
    }
  }

  lemma {:induction false} RunCounts(t: Topology, s: System, ls: seq<Label>, k: nat)
    requires Shaped(t, s) && Runs(t, s, ls) && k < |s.handlers|
    ensures k < |After(t, s, ls).handlers|
    ensures After(t, s, ls).handlers[k].accesses == s.handlers[k].accesses + Accesses(t, s, ls, k)
    ensures After(t, s, ls).handlers[k].failures == s.handlers[k].failures + Contentions(t, s, ls, k)
    decreases |ls|
  {
    if ls != [] {
      ApplyShaped(t, s, ls[0]);
      ApplyCounts(t, s, ls[0], k);
      RunCounts(t, Apply(t, s, ls[0]), ls[1..], k);
    }
  }

  function AccessBound(n: nat, writes: nat): nat {
    3 * n + 2 + writes * (n + 2)
  }

  /** Retry termination: a handler that has just arrived meets at most as many
      contention failures as other writers make successful writes, and with n
      remote stores `handle` accesses the stores at most 3n + 2 times plus
      n + 2 times for each of those writes. */
  lemma HandlingEnds(t: Topology, s: System, ls: seq<Label>, k: nat)
    requires Shaped(t, s) && Runs(t, s, ls) && AllClean(s.replicas)
    requires forall i :: 0 <= i < |ls| ==> Reachable(ls[i])
    requires k < |s.handlers| && s.handlers[k] == Begin(s.handlers[k].site, s.handlers[k].msg)
    requires Covered(t, s.handlers[k])
    ensures var others, n := OtherWrites(t, s, ls, k), |Remotes(t, s.handlers[k].site)|;
            && Contentions(t, s, ls, k) <= others
            && Accesses(t, s, ls, k) <= AccessBound(n, others)
  {
    RunCounts(t, s, ls, k);
    BeginPaced(t, s.handlers[k].site, s.handlers[k].msg);
    RunPays(t, s, ls, k);
    RunPaced(t, s, ls, k);
    SiteStays(t, s, ls, k);
    PacedBound(t, After(t, s, ls).handlers[k], OtherWrites(t, s, ls, k));
  }

  lemma BeginPaced(t: Topology, site: nat, m: Message)
    requires InRange(t, Begin(site, m))
    ensures Paced(t, Begin(site, m))
  {
  }

  lemma PacedBound(t: Topology, h: Handler, others: nat)
    requires InRange(t, h) && Paced(t, h) && h.failures <= others
    ensures h.accesses <= AccessBound(|Remotes(t, h.site)|, others)
  {
    MoreTimes(h.failures, others, |Remotes(t, h.site)| + 2);
  }

  lemma MoreTimes(a: nat, b: nat, n: nat)
    ensures a <= b ==> a * n <= b * n
  {
    if a <= b {
      assert b * n == a * n + (b - a) * n;
    }
  }

  lemma {:induction false} SiteStays(t: Topology, s: System, ls: seq<Label>, k: nat)
    requires Shaped(t, s) && Runs(t, s, ls) && k < |s.handlers|
    ensures k < |After(t, s, ls).handlers| && After(t, s, ls).handlers[k].site == s.handlers[k].site
    decreases |ls|
  {
    if ls != [] {
      ApplyShaped(t, s, ls[0]);
      ApplyKeeps(t, s, ls[0], k);
      SiteStays(t, Apply(t, s, ls[0]), ls[1..], k);
    }
  }
}
