/** Accounting record numbers. A handler takes its number by committing to its
    local store: an INTERIM by the CAS write of the incremented record, or by
    adding the incremented record that it found at a remote store; a STOP by the
    CAS deletion. Each span of time for which a store holds the record
    is one life of the session there. */
module Numbering {
  import opened Wrappers
  import opened Uint32
  import opened Accounting
  import opened Replicas
  import opened HandlerMachine
  import opened Protocol
  import opened Provenance
  import opened CasDiscipline

  /** A committed record number. `height` is the number before wrap-around. */
  datatype Bill = Bill(who: nat, stop: bool, life: nat, height: nat, number: uint32)

  /** The step commits a number to the store of site `w`: one read there, or one
      that opens a new life there. */
  predicate Commits(t: Topology, s: System, l: Label, w: nat)
    requires Shaped(t, s) && Enabled(t, s, l) && w < |t.remotes|
  {
    && l.Access? && l.up
    && var h := s.handlers[l.who];
    && h.site == w
    && match h.pc
       case WriteLocal(found, cas) => (cas != 0 || Expiry(found.refreshTime) > 0) && Matches(s.replicas[w], cas)
       case EraseLocal(_, cas, from) => from == w && Matches(s.replicas[w], cas)
       case _ => false
  }

  /** A new life begins whenever the record appears. */
  function LifeAfter(r: Replica, r': Replica, life: nat): nat {
    if r.entry.None? && r'.entry.Some? then life + 1 else life
  }

  /** The height follows the record number of the replica. */
  function HeightAfter(r: Replica, r': Replica, height: nat): nat {
    if !Holds(r') then height
    else if !Holds(r) then Current(r').recordNumber
    else if Current(r').recordNumber == Current(r).recordNumber then height
    else height + 1
  }

  /** The height of the number that a handler commits. */
  function BilledHeight(h: Handler, height: nat): nat {
    if h.pc.WriteLocal? && h.pc.cas == 0 then h.pc.found.recordNumber else height + 1
  }

  /** The numbers committed to the store of site `w` in a run, in commit order. */
  ghost function Billed(t: Topology, s: System, ls: seq<Label>, w: nat, life: nat, height: nat): seq<Bill>
    requires Shaped(t, s) && Runs(t, s, ls) && w < |t.remotes|
    decreases |ls|
  {
    if ls == [] then [] else
      ApplyShaped(t, s, ls[0]);
      var s' := Apply(t, s, ls[0]);
      var r, r' := s.replicas[w], s'.replicas[w];
      (if Commits(t, s, ls[0], w) then
         var h := s.handlers[ls[0].who];
         [Bill(ls[0].who, h.pc.EraseLocal?, LifeAfter(r, r', life), BilledHeight(h, height), h.pc.found.recordNumber)]
       else [])
      + Billed(t, s', ls[1..], w, LifeAfter(r, r', life), HeightAfter(r, r', height))
  }

  /** The record is readable, written to last, and has counted up to `height`. */
  predicate Tallied(r: Replica, height: nat) {
    r.entry.Some? ==>
      && Holds(r)
      && Expiry(Current(r).refreshTime) > 0
      && Current(r).recordNumber == Wrap(height)
  }

  lemma EffectTallied(t: Topology, rs: seq<Replica>, h: Handler, up: bool, height: nat)
    requires Sited(t) && |rs| == |t.remotes| && InRange(t, h) && AtStore(h)
    requires Disciplined(t, rs, h) && Sound(rs[Target(t, h)]) && Tallied(rs[Target(t, h)], height)
    ensures var r := rs[Target(t, h)];
            var r' := Effect(h, r, up);
            Tallied(r', HeightAfter(r, r', height))
  {
  }

  lemma ApplyTallied(t: Topology, s: System, l: Label, w: nat, height: nat)
    requires Shaped(t, s) && Enabled(t, s, l) && AllDisciplined(t, s)
    requires w < |t.remotes| && Tallied(s.replicas[w], height)
    ensures var r, r' := s.replicas[w], Apply(t, s, l).replicas[w];
            Tallied(r', HeightAfter(r, r', height))
  {
    if l.Access? && Target(t, s.handlers[l.who]) == w {
      EffectTallied(t, s.replicas, s.handlers[l.who], l.up, height);
    }
  }

  lemma CommitIsNext(t: Topology, s: System, l: Label, w: nat, height: nat)
    requires Shaped(t, s) && Enabled(t, s, l) && AllDisciplined(t, s)
    requires w < |t.remotes| && Tallied(s.replicas[w], height) && Commits(t, s, l, w)
    ensures var h, r, r' := s.handlers[l.who], s.replicas[w], Apply(t, s, l).replicas[w];
            && h.pc.found.recordNumber == Wrap(BilledHeight(h, height))
            && (Holds(r) <==> h.pc.EraseLocal? || h.pc.cas != 0) && (r.entry.Some? ==> Holds(r))
            && if h.pc.EraseLocal? then r'.entry.None?
               else Holds(r') && HeightAfter(r, r', height) == BilledHeight(h, height)
  {
    var h := s.handlers[l.who];
    assert Disciplined(t, s.replicas, h);
    NextWrap(height);
  }

  /** A bill made when the store is in this life, at this height and holds the
      record or not: either later in the same life, or in a later life. */
  predicate Ahead(b: Bill, life: nat, height: nat, open: bool) {
    b.life > life || (open && b.life == life && b.height > height)
  }

  lemma {:induction false} BillsAreAhead(t: Topology, s: System, ls: seq<Label>, w: nat, life: nat, height: nat)
    requires Shaped(t, s) && Runs(t, s, ls) && AllDisciplined(t, s)
    requires w < |t.remotes| && Tallied(s.replicas[w], height)
    ensures forall b :: b in Billed(t, s, ls, w, life, height) ==>
              Ahead(b, life, height, s.replicas[w].entry.Some?) && b.number == Wrap(b.height)
    decreases |ls|
  {
    if ls != [] {
      var l := ls[0];
      ApplyDisciplined(t, s, l);
      ApplyTallied(t, s, l, w, height);
      var s' := Apply(t, s, l);
      var r, r' := s.replicas[w], s'.replicas[w];
      var life', height' := LifeAfter(r, r', life), HeightAfter(r, r', height);
      BillsAreAhead(t, s', ls[1..], w, life', height');
      if Commits(t, s, l, w) {
        CommitIsNext(t, s, l, w, height);
      }
    }
  }

  /** Bill `a` was committed before bill `b`. */
  predicate InOrder(a: Bill, b: Bill) {
    && a.life <= b.life
    && (a.life == b.life ==> a.height < b.height && !a.stop)
    && a.number == Wrap(a.height) && b.number == Wrap(b.height)
  }

  /** Their numbers are the same only if a multiple of 2^32 lies between them. */
  predicate SameOnlyByWrapping(a: Bill, b: Bill) {
    && (a.number == b.number <==> (b.height - a.height) % LIMIT == 0)
    && (a.life == b.life && b.height < a.height + LIMIT ==> a.number != b.number)
  }

  lemma OrderedBills(a: Bill, b: Bill)
    requires InOrder(a, b)
    ensures SameOnlyByWrapping(a, b)
  {
    WrapsAlike(a.height, b.height);
  }

  /** Record numbering at one local store, in every run of any number of sites
      and whatever fails: within one life of the record the committed numbers
      strictly increase in commit order before wrap-around, so that two of them
      are the same only if a multiple of 2^32 lies between them, and nothing
      follows a STOP in the same life. */
  lemma NumbersIncrease(t: Topology, s: System, ls: seq<Label>, w: nat, life: nat, height: nat, i: nat, j: nat)
    requires Shaped(t, s) && Runs(t, s, ls) && AllDisciplined(t, s)
    requires w < |t.remotes| && Tallied(s.replicas[w], height)
    requires i < j < |Billed(t, s, ls, w, life, height)|
    ensures var a, b := Billed(t, s, ls, w, life, height)[i], Billed(t, s, ls, w, life, height)[j];
            InOrder(a, b) && SameOnlyByWrapping(a, b)
  {
    BillsInOrder(t, s, ls, w, life, height);
    OrderedAt(Billed(t, s, ls, w, life, height), i, j);
    OrderedBills(Billed(t, s, ls, w, life, height)[i], Billed(t, s, ls, w, life, height)[j]);
  }

  /** Every bill is in order with those after it. */
  predicate Ordered(bs: seq<Bill>) {
    bs == [] || ((forall b :: b in bs[1..] ==> InOrder(bs[0], b)) && Ordered(bs[1..]))
  }

  lemma {:induction false} OrderedAt(bs: seq<Bill>, i: nat, j: nat)
    requires Ordered(bs) && i < j < |bs|
    ensures InOrder(bs[i], bs[j])
  {
    if i == 0 {
      assert bs[j] == bs[1..][j - 1];
    } else {
      OrderedAt(bs[1..], i - 1, j - 1);
    }
  }

  /** A commit is in order with what is billed after it. */
  lemma CommitInOrder(t: Topology, s: System, l: Label, w: nat, life: nat, height: nat, a: Bill, b: Bill)
    requires Shaped(t, s) && Enabled(t, s, l) && AllDisciplined(t, s)
    requires w < |t.remotes| && Tallied(s.replicas[w], height) && Commits(t, s, l, w)
    requires var h, r, r' := s.handlers[l.who], s.replicas[w], Apply(t, s, l).replicas[w];
             && a == Bill(l.who, h.pc.EraseLocal?, LifeAfter(r, r', life), BilledHeight(h, height), h.pc.found.recordNumber)
             && Ahead(b, LifeAfter(r, r', life), HeightAfter(r, r', height), r'.entry.Some?) && b.number == Wrap(b.height)
    ensures InOrder(a, b)
  {
    CommitIsNext(t, s, l, w, height);
  }

  lemma {:induction false} BillsInOrder(t: Topology, s: System, ls: seq<Label>, w: nat, life: nat, height: nat)
    requires Shaped(t, s) && Runs(t, s, ls) && AllDisciplined(t, s)
    requires w < |t.remotes| && Tallied(s.replicas[w], height)
    ensures Ordered(Billed(t, s, ls, w, life, height))
    decreases |ls|
  {
    if ls != [] {
      var l := ls[0];
      ApplyDisciplined(t, s, l);
      ApplyTallied(t, s, l, w, height);
      var s' := Apply(t, s, l);
      var r, r' := s.replicas[w], s'.replicas[w];
      var life', height' := LifeAfter(r, r', life), HeightAfter(r, r', height);
      BillsInOrder(t, s', ls[1..], w, life', height');
      var bs, rest := Billed(t, s, ls, w, life, height), Billed(t, s', ls[1..], w, life', height');
      if Commits(t, s, l, w) {
        assert bs[1..] == rest;
        BillsAreAhead(t, s', ls[1..], w, life', height');
        forall b | b in rest
          ensures InOrder(bs[0], b)
        {
          CommitInOrder(t, s, l, w, life, height, bs[0], b);
        }
      } else {
        assert bs == rest;
      }
    }
  }

  // ----- what is sent is what was committed

  /** An INTERIM or STOP that is done with its local store. */
  predicate Past(h: Handler) {
    && (h.msg.recordType.Interim? || h.msg.recordType.Stop?)
    && match h.pc
       case FindLocal | FindRemote(_) | WriteLocal(_, _) | EraseLocal(_, _, _) => false
       case Finished => h.answered == 1
       case _ => true
  }

  /** The number that the ACRs of such a handler carry. */
  function NumberOf(h: Handler): uint32 {
    match h.pc
    case ReadRemote(_, s) => s.recordNumber
    case WriteRemote(_, s, _, _) => s.recordNumber
    case RemoveRemote(_, s) => s.recordNumber
    case Cancel(s) => s.recordNumber
    case _ => h.msg.recordNumber
  }

  /** The number that the handler is about to take to its local store was read
      there, or opens a new life there. */
  predicate TakesThere(h: Handler) {
    match h.pc
    case WriteLocal(found, cas) => cas != 0 || Expiry(found.refreshTime) > 0
    case EraseLocal(_, _, from) => from == h.site
    case _ => false
  }

  /** What a handler that is past its local store will send stays the same. */
  predicate KeepsNumber(h: Handler, h': Handler) {
    && h'.msg.recordType == h.msg.recordType && h'.site == h.site
    && (Past(h) ==> Past(h') && NumberOf(h') == NumberOf(h))
  }

  lemma ResumePast(t: Topology, h: Handler, r: Replica, up: bool)
    requires Sited(t) && InRange(t, h) && AtStore(h) && Owned(h) && Tidy(h)
    ensures KeepsNumber(h, Resume(t, h, r, up))
    ensures !Past(h) && Past(Resume(t, h, r, up))
            <==> (h.pc.WriteLocal? || h.pc.EraseLocal?) && !WriteStatus(r, h.pc.cas, up).DATA_CONTENTION?
    ensures !Past(h) && Past(Resume(t, h, r, up)) ==>
              NumberOf(Resume(t, h, r, up)) == h.pc.found.recordNumber
  {
  }

  lemma AnsweredPast(t: Topology, h: Handler, rc: int, interval: int32, sessionId: string)
    requires InRange(t, h) && h.pc.Waiting? && Owned(h)
    ensures var h' := Answered(t, h, rc, interval, sessionId);
            KeepsNumber(h, h') && Past(h') == Past(h)
  {
  }

  lemma ArmedPast(t: Topology, h: Handler, reply: Option<string>)
    requires InRange(t, h) && h.pc.Arming? && Owned(h) && Tidy(h)
    ensures var h' := Armed(t, h, reply);
            KeepsNumber(h, h') && Past(h') == Past(h)
  {
  }

  /** The step takes handler `k` past its local store. */
  predicate Passes(t: Topology, s: System, l: Label, k: nat)
    requires Shaped(t, s) && Enabled(t, s, l)
  {
    l.Access? && l.who == k && !Past(s.handlers[k]) && Past(Apply(t, s, l).handlers[k])
  }

  predicate IsPast(s: System, k: nat) {
    k < |s.handlers| && Past(s.handlers[k])
  }

  /** What handler `k` is known to have done stays so. */
  predicate Continues(s: System, s': System, k: nat) {
    && |s.handlers| <= |s'.handlers|
    && (k < |s.handlers| ==> KeepsNumber(s.handlers[k], s'.handlers[k]))
  }

  lemma MoveContinues(s: System, s': System, j: nat, k: nat)
    requires j < |s.handlers| == |s'.handlers| && s'.handlers == s.handlers[j := s'.handlers[j]]
    requires KeepsNumber(s.handlers[j], s'.handlers[j]) && Past(s'.handlers[j]) == Past(s.handlers[j])
    ensures Continues(s, s', k) && IsPast(s', k) == IsPast(s, k)
  {
  }

  /** Only a store access of its own takes a handler past its local store. */
  lemma ApplyContinues(t: Topology, s: System, l: Label, k: nat)
    requires Shaped(t, s) && Enabled(t, s, l) && AllOwned(s)
    ensures var s' := Apply(t, s, l);
            Continues(s, s', k) && (IsPast(s', k) <==> IsPast(s, k) || Passes(t, s, l, k))
  {
    var s' := Apply(t, s, l);
    match l {
      case Arrive(_, _) =>
      case Access(j, up) =>
        ResumePast(t, s.handlers[j], s.replicas[Target(t, s.handlers[j])], up);
      case Send(j) =>
        MoveContinues(s, s', j, k);
      case Answer(j, rc, interval, sessionId) =>
        AnsweredPast(t, s.handlers[j], rc, interval, sessionId);
        MoveContinues(s, s', j, k);
      case Chronos(j, reply, _) =>
        ArmedPast(t, s.handlers[j], reply);
        MoveContinues(s, s', j, k);
      case CancelTimer(j) =>
        MoveContinues(s, s', j, k);
      case Pop(_, _) =>
      case Lose(_) =>
    }
  }

  /** A handler that passes its local store has committed there exactly if the
      store was reachable and its number was read there or is stored there anew;
      it was not for a STOP that found its session elsewhere. */
  lemma PassCommitsIff(t: Topology, s: System, l: Label, k: nat)
    requires Shaped(t, s) && Enabled(t, s, l) && AllOwned(s) && Passes(t, s, l, k)
    ensures var h := s.handlers[k];
            && (Commits(t, s, l, h.site) <==> l.up && TakesThere(h))
            && NumberOf(Apply(t, s, l).handlers[k]) == h.pc.found.recordNumber
            && (h.pc.EraseLocal? <==> h.msg.recordType.Stop?)
  {
    var h := s.handlers[k];
    assert Tidy(h);
    ResumePast(t, h, s.replicas[Target(t, h)], l.up);
  }

  lemma CommitPasses(t: Topology, s: System, l: Label, w: nat)
    requires Shaped(t, s) && Enabled(t, s, l) && AllOwned(s) && w < |t.remotes| && Commits(t, s, l, w)
    ensures Passes(t, s, l, l.who)
  {
    var h := s.handlers[l.who];
    ResumePast(t, h, s.replicas[Target(t, h)], l.up);
  }

  /** How often handler `k` passes its local store with that store reachable, or not. */
  ghost function Passings(t: Topology, s: System, ls: seq<Label>, k: nat, up: bool): nat
    requires Shaped(t, s) && Runs(t, s, ls)
    decreases |ls|
  {
    if ls == [] then 0 else
      ApplyShaped(t, s, ls[0]);
      (if Passes(t, s, ls[0], k) && ls[0].up == up then 1 else 0)
      + Passings(t, Apply(t, s, ls[0]), ls[1..], k, up)
  }

  /** The ACRs that handler `k` sends in a run. */
  ghost function SentBy(t: Topology, s: System, ls: seq<Label>, k: nat): seq<Acr>
    requires Shaped(t, s) && Runs(t, s, ls)
    decreases |ls|
  {
    if ls == [] then [] else
      ApplyShaped(t, s, ls[0]);
      var s' := Apply(t, s, ls[0]);
      (if ls[0].Send? && ls[0].who == k && |s.acrs| <= |s'.acrs| then s'.acrs[|s.acrs|..] else [])
      + SentBy(t, s', ls[1..], k)
  }

  /** The bill is one that handler `h` pays. */
  predicate PaidBy(b: Bill, h: Handler) {
    b.number == NumberOf(h) && (b.stop <==> h.msg.recordType.Stop?)
  }

  /** The ACR is the one this handler sends. */
  predicate CarriedBy(a: Acr, h: Handler) {
    a.recordNumber == NumberOf(h) && a.recordType == h.msg.recordType
  }

  /** The ACR of one step. */
  lemma SendCarries(t: Topology, s: System, l: Label)
    requires Shaped(t, s) && Enabled(t, s, l) && l.Send? && AllOwned(s)
    ensures var h, s' := s.handlers[l.who], Apply(t, s, l);
            && |s.acrs| <= |s'.acrs| && (Past(h) || h.msg.recordType.Start? || h.msg.recordType.Event?)
            && forall a :: a in s'.acrs[|s.acrs|..] ==> CarriedBy(a, h)
  {
  }

  /** A handler passes its local store once, and then its number is settled. */
  lemma {:induction false} RunContinues(t: Topology, s: System, ls: seq<Label>, k: nat)
    requires Shaped(t, s) && Runs(t, s, ls) && AllOwned(s)
    ensures Continues(s, After(t, s, ls), k)
    ensures Passings(t, s, ls, k, true) + Passings(t, s, ls, k, false)
            == (if IsPast(After(t, s, ls), k) then 1 else 0) - (if IsPast(s, k) then 1 else 0)
    decreases |ls|
  {
    if ls != [] {
      ApplyShaped(t, s, ls[0]);
      ApplyOwned(t, s, ls[0]);
      ApplyContinues(t, s, ls[0], k);
      RunContinues(t, Apply(t, s, ls[0]), ls[1..], k);
    }
  }

  lemma CommitPaid(t: Topology, s: System, l: Label, w: nat, b: Bill)
    requires Shaped(t, s) && Enabled(t, s, l) && AllOwned(s) && w < |t.remotes| && Commits(t, s, l, w)
    requires b.number == s.handlers[l.who].pc.found.recordNumber && b.stop == s.handlers[l.who].pc.EraseLocal?
    ensures var s' := Apply(t, s, l);
            IsPast(s', l.who) && PaidBy(b, s'.handlers[l.who])
  {
    CommitPasses(t, s, l, w);
    PassCommitsIff(t, s, l, l.who);
  }

  /** The bills of a handler bear the number that it ends up with. */
  lemma {:induction false} BillsPaid(t: Topology, s: System, ls: seq<Label>, w: nat, life: nat, height: nat, k: nat)
    requires Shaped(t, s) && Runs(t, s, ls) && AllOwned(s) && w < |t.remotes|
    ensures var s' := After(t, s, ls);
            forall b :: b in Billed(t, s, ls, w, life, height) && b.who == k ==> IsPast(s', k) && PaidBy(b, s'.handlers[k])
    decreases |ls|
  {
    if ls != [] {
      var l := ls[0];
      ApplyShaped(t, s, l);
      ApplyOwned(t, s, l);
      var s1 := Apply(t, s, l);
      var r, r1 := s.replicas[w], s1.replicas[w];
      BillsPaid(t, s1, ls[1..], w, LifeAfter(r, r1, life), HeightAfter(r, r1, height), k);
      if Commits(t, s, l, w) && l.who == k {
        RunContinues(t, s1, ls[1..], k);
        CommitPaid(t, s, l, w, Billed(t, s, ls, w, life, height)[0]);
      }
    }
  }

  /** And so do its ACRs. */
  lemma {:induction false} AcrsCarried(t: Topology, s: System, ls: seq<Label>, k: nat)
    requires Shaped(t, s) && Runs(t, s, ls) && AllOwned(s)
    ensures var s' := After(t, s, ls);
            forall a :: a in SentBy(t, s, ls, k) ==> IsPast(s', k) ==> CarriedBy(a, s'.handlers[k])
    decreases |ls|
  {
    if ls != [] {
      var l := ls[0];
      ApplyShaped(t, s, l);
      ApplyOwned(t, s, l);
      AcrsCarried(t, Apply(t, s, l), ls[1..], k);
      if l.Send? && l.who == k {
        SendCarries(t, s, l);
        RunContinues(t, s, ls, k);
      }
    }
  }

  /** Every ACR of the handler that committed a number carries that number. */
  lemma SentNumbers(t: Topology, s: System, ls: seq<Label>, w: nat, life: nat, height: nat, i: nat)
    requires Shaped(t, s) && Runs(t, s, ls) && AllOwned(s) && w < |t.remotes|
    requires i < |Billed(t, s, ls, w, life, height)|
    ensures var b := Billed(t, s, ls, w, life, height)[i];
            forall a :: a in SentBy(t, s, ls, b.who) ==>
              a.recordNumber == b.number && (a.recordType.Stop? <==> b.stop)
  {
    var b := Billed(t, s, ls, w, life, height)[i];
    BillsPaid(t, s, ls, w, life, height, b.who);
    AcrsCarried(t, s, ls, b.who);
  }
}
