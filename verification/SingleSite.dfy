/** Record numbers without geographic redundancy: one site, no remote stores. */
module SingleSite {
  import opened Wrappers
  import opened Uint32
  import opened Replicas
  import opened HandlerMachine
  import opened Protocol
  import opened Provenance
  import opened CasDiscipline
  import opened Numbering

  predicate Alone(t: Topology) {
    t.remotes == [[]]
  }

  /** The handler has no dealings with remote stores, and a START has number 1. */
  predicate Solitary(h: Handler) {
    && Owned(h) && Tidy(h)
    && (h.msg.recordType.Start? ==> h.msg.recordNumber == 1)
    && match h.pc
       case FindRemote(_) | ReadRemote(_, _) | WriteRemote(_, _, _, _) | RemoveRemote(_, _) => false
       case WriteLocal(_, cas) => cas != 0
       case EraseLocal(_, _, from) => from == 0
       case Creating(_, s) => s.recordNumber == 1
       case _ => true
  }

  ghost predicate AllSolitary(t: Topology, s: System) {
    && Alone(t) && Shaped(t, s) && AllDisciplined(t, s)
    && forall k :: 0 <= k < |s.handlers| ==> Solitary(s.handlers[k])
  }

  lemma ResumeSolitary(t: Topology, h: Handler, r: Replica, up: bool)
    requires Alone(t) && InRange(t, h) && AtStore(h) && Solitary(h) && Sound(r)
    ensures Solitary(Resume(t, h, r, up))
  {
    ResumeOwned(t, h, r, up);
  }

  lemma AnsweredSolitary(t: Topology, h: Handler, rc: int, interval: int32, sessionId: string)
    requires InRange(t, h) && h.pc.Waiting? && Solitary(h)
    ensures Solitary(Answered(t, h, rc, interval, sessionId))
  {
    AnsweredOwned(t, h, rc, interval, sessionId);
  }

  lemma ArmedSolitary(t: Topology, h: Handler, reply: Option<string>)
    requires InRange(t, h) && h.pc.Arming? && Solitary(h)
    ensures Solitary(Armed(t, h, reply))
  {
    ArmedOwned(t, h, reply);
  }

  lemma AccessSolitary(t: Topology, s: System, k: nat, up: bool)
    requires AllSolitary(t, s) && Enabled(t, s, Access(k, up))
    ensures AllSolitary(t, Apply(t, s, Access(k, up)))
  {
    ApplyDisciplined(t, s, Access(k, up));
    ResumeSolitary(t, s.handlers[k], s.replicas[0], up);
  }

  lemma ApplySolitary(t: Topology, s: System, l: Label)
    requires AllSolitary(t, s) && Enabled(t, s, l)
    ensures AllSolitary(t, Apply(t, s, l))
  {
    ApplyDisciplined(t, s, l);
    match l {
      case Arrive(_, _) =>
      case Access(k, up) =>
        AccessSolitary(t, s, k, up);
      case Send(_) =>
      case Answer(k, rc, interval, sessionId) =>
        AnsweredSolitary(t, s.handlers[k], rc, interval, sessionId);
      case Chronos(k, reply, _) =>
        ArmedSolitary(t, s.handlers[k], reply);
      case CancelTimer(_) =>
      case Pop(_, _) =>
      case Lose(_) =>
    }
  }

  /** No resurrection: only the answer to a START ever makes the record appear,
      and it appears with number 1. Every other change of the number is the
      commit of the handler that moves. */
  lemma OnlyStartOpens(t: Topology, s: System, l: Label, height: nat)
    requires AllSolitary(t, s) && Enabled(t, s, l) && Tallied(s.replicas[0], height)
    ensures var r, r' := s.replicas[0], Apply(t, s, l).replicas[0];
            && (r.entry.None? && r'.entry.Some? ==>
                  && l.Access? && s.handlers[l.who].msg.recordType.Start?
                  && Holds(r') && Current(r').recordNumber == 1)
            && (!Commits(t, s, l, 0) && r.entry.Some? && r'.entry.Some? ==>
                  HeightAfter(r, r', height) == height)
  {
    if l.Access? {
      var h := s.handlers[l.who];
      assert Solitary(h) && Disciplined(t, s.replicas, h) && Target(t, h) == 0;
    }
  }

  /** The bill continues the life at this height, or is the first of a later one. */
  predicate Follows(b: Bill, life: nat, height: nat, open: bool) {
    (open && b.life == life && b.height == height + 1) || (b.life > life && b.height == 2)
  }

  ghost predicate FollowsAt(bs: seq<Bill>, i: nat, life: nat, height: nat, open: bool)
    requires i < |bs|
  {
    if i == 0 then Follows(bs[0], life, height, open)
    else Follows(bs[i], bs[i - 1].life, bs[i - 1].height, !bs[i - 1].stop)
  }

  /** What follows after a step that commits nothing follows before it. */
  lemma QuietStepFollows(t: Topology, s: System, l: Label, life: nat, height: nat, b: Bill)
    requires AllSolitary(t, s) && Enabled(t, s, l) && Tallied(s.replicas[0], height) && !Commits(t, s, l, 0)
    requires var r, r' := s.replicas[0], Apply(t, s, l).replicas[0];
             Follows(b, LifeAfter(r, r', life), HeightAfter(r, r', height), r'.entry.Some?)
    ensures Follows(b, life, height, s.replicas[0].entry.Some?)
  {
    ApplyTallied(t, s, l, 0, height);
    OnlyStartOpens(t, s, l, height);
  }

  /** What follows after a commit follows the bill of that commit. */
  lemma CommitFollows(t: Topology, s: System, l: Label, life: nat, height: nat, b: Bill)
    requires AllSolitary(t, s) && Enabled(t, s, l) && Tallied(s.replicas[0], height) && Commits(t, s, l, 0)
    requires var r, r' := s.replicas[0], Apply(t, s, l).replicas[0];
             Follows(b, LifeAfter(r, r', life), HeightAfter(r, r', height), r'.entry.Some?)
    ensures Follows(b, life, height + 1, !s.handlers[l.who].pc.EraseLocal?)
  {
    assert Solitary(s.handlers[l.who]);
    CommitIsNext(t, s, l, 0, height);
  }

  /** Every bill follows the one before it. */
  predicate Chained(bs: seq<Bill>, life: nat, height: nat, open: bool) {
    bs == [] || (Follows(bs[0], life, height, open) && Chained(bs[1..], bs[0].life, bs[0].height, !bs[0].stop))
  }

  lemma {:induction false} BillsFollow(t: Topology, s: System, ls: seq<Label>, life: nat, height: nat)
    requires AllSolitary(t, s) && Runs(t, s, ls) && Tallied(s.replicas[0], height)
    ensures Chained(Billed(t, s, ls, 0, life, height), life, height, s.replicas[0].entry.Some?)
    decreases |ls|
  {
    if ls != [] {
      var l := ls[0];
      ApplySolitary(t, s, l);
      ApplyTallied(t, s, l, 0, height);
      var s' := Apply(t, s, l);
      var r, r' := s.replicas[0], s'.replicas[0];
      var life', height' := LifeAfter(r, r', life), HeightAfter(r, r', height);
      BillsFollow(t, s', ls[1..], life', height');
      var rest := Billed(t, s', ls[1..], 0, life', height');
      if Commits(t, s, l, 0) {
        assert Solitary(s.handlers[l.who]);
        CommitIsNext(t, s, l, 0, height);
        assert Billed(t, s, ls, 0, life, height)[1..] == rest;
        if rest != [] {
          CommitFollows(t, s, l, life, height, rest[0]);
        }
      } else {
        assert Billed(t, s, ls, 0, life, height) == rest;
        if rest != [] {
          QuietStepFollows(t, s, l, life, height, rest[0]);
        }
      }
    }
  }

  lemma {:induction false} ChainedAt(bs: seq<Bill>, i: nat, life: nat, height: nat, open: bool)
    requires Chained(bs, life, height, open) && i < |bs|
    ensures FollowsAt(bs, i, life, height, open)
  {
    if i > 0 {
      ChainedAt(bs[1..], i - 1, bs[0].life, bs[0].height, !bs[0].stop);
    }
  }

  /** Exact numbering from the beginning: the first number committed in a life
      is 2, following the 1 of its START; every other is one more than the one
      before it; and a STOP is the last of its life. */
  lemma NumbersAreConsecutive(t: Topology, s: System, ls: seq<Label>, i: nat)
    requires Alone(t) && Initial(t, s) && Shaped(t, s) && Runs(t, s, ls)
    requires i < |Billed(t, s, ls, 0, 0, 0)|
    ensures var bs := Billed(t, s, ls, 0, 0, 0);
            && bs[i].number == Wrap(bs[i].height)
            && ((bs[i].height == 2 && (i > 0 ==> bs[i - 1].life < bs[i].life))
                || (i > 0 && bs[i - 1].life == bs[i].life && bs[i].height == bs[i - 1].height + 1 && !bs[i - 1].stop))
  {
    BillsFollow(t, s, ls, 0, 0);
    ChainedAt(Billed(t, s, ls, 0, 0, 0), i, 0, 0, false);
    BillsAreAhead(t, s, ls, 0, 0, 0);
  }

  // ----- what is sent is what was committed

  function Count(bs: seq<Bill>, k: nat): nat {
    if bs == [] then 0 else (if bs[0].who == k then 1 else 0) + Count(bs[1..], k)
  }

  /** A step that takes an INTERIM or STOP past the store commits its number
      exactly if the store was reachable. */
  lemma PassCommitsIfUp(t: Topology, s: System, l: Label, k: nat)
    requires AllSolitary(t, s) && Enabled(t, s, l) && Passes(t, s, l, k)
    ensures Commits(t, s, l, 0) <==> l.up
  {
    assert Solitary(s.handlers[k]);
    PassCommitsIff(t, s, l, k);
    ResumePast(t, s.handlers[k], s.replicas[0], l.up);
  }

  lemma {:induction false} RunCounts(t: Topology, s: System, ls: seq<Label>, life: nat, height: nat, k: nat)
    requires AllSolitary(t, s) && Runs(t, s, ls)
    ensures Count(Billed(t, s, ls, 0, life, height), k) == Passings(t, s, ls, k, true)
    decreases |ls|
  {
    if ls != [] {
      var l := ls[0];
      ApplySolitary(t, s, l);
      var s' := Apply(t, s, l);
      var r, r' := s.replicas[0], s'.replicas[0];
      var life', height' := LifeAfter(r, r', life), HeightAfter(r, r', height);
      RunCounts(t, s', ls[1..], life', height', k);
      var bs, rest := Billed(t, s, ls, 0, life, height), Billed(t, s', ls[1..], 0, life', height');
      if Passes(t, s, l, k) {
        PassCommitsIfUp(t, s, l, k);
      }
      if Commits(t, s, l, 0) {
        CommitPasses(t, s, l, 0);
        assert bs[1..] == rest;
      } else {
        assert bs == rest;
      }
    }
  }

  /** Handler `k` is an INTERIM or a STOP at the end of a run from the beginning. */
  ghost predicate Handled(t: Topology, s: System, ls: seq<Label>, k: nat) {
    && Alone(t) && Initial(t, s) && Shaped(t, s) && Runs(t, s, ls)
    && k < |After(t, s, ls).handlers|
    && (After(t, s, ls).handlers[k].msg.recordType.Interim? || After(t, s, ls).handlers[k].msg.recordType.Stop?)
  }

  /** In every run, whatever fails: an INTERIM or STOP that goes on to send its
      ACR has passed the store once, and its number is committed, once, exactly
      if the store was reachable then. One that is dropped commits nothing. */
  lemma SentIsCommittedIff(t: Topology, s: System, ls: seq<Label>, k: nat)
    requires Handled(t, s, ls, k)
    ensures var bs, h := Billed(t, s, ls, 0, 0, 0), After(t, s, ls).handlers[k];
            && Passings(t, s, ls, k, true) + Passings(t, s, ls, k, false) == (if Past(h) then 1 else 0)
            && Count(bs, k) == Passings(t, s, ls, k, true)
            && (Past(h) ==> (Count(bs, k) == 1 <==> Passings(t, s, ls, k, false) == 0))
            && (forall b :: b in bs && b.who == k ==>
                  Past(h) && b.number == NumberOf(h) && (b.stop <==> h.msg.recordType.Stop?))
            && (forall a :: a in SentBy(t, s, ls, k) ==> Past(h) ==> a.recordNumber == NumberOf(h))
  {
    RunContinues(t, s, ls, k);
    BillsPaid(t, s, ls, 0, 0, 0, k);
    AcrsCarried(t, s, ls, k);
    RunCounts(t, s, ls, 0, 0, k);
  }

  lemma {:induction false} NeverMissed(t: Topology, s: System, ls: seq<Label>, k: nat)
    requires Shaped(t, s) && Runs(t, s, ls)
    requires forall i :: 0 <= i < |ls| && ls[i].Access? && ls[i].who == k ==> ls[i].up
    ensures Passings(t, s, ls, k, false) == 0
    decreases |ls|
  {
    if ls != [] {
      ApplyShaped(t, s, ls[0]);
      NeverMissed(t, Apply(t, s, ls[0]), ls[1..], k);
    }
  }

  /** If the store was reachable whenever this handler asked it, the handler has
      committed exactly one number by the time it sends, the number that its
      ACRs carry; if it was dropped it has committed none. */
  lemma SentNumbersAreCommitted(t: Topology, s: System, ls: seq<Label>, k: nat)
    requires Handled(t, s, ls, k)
    requires forall i :: 0 <= i < |ls| && ls[i].Access? && ls[i].who == k ==> ls[i].up
    ensures var bs, h := Billed(t, s, ls, 0, 0, 0), After(t, s, ls).handlers[k];
            && Count(bs, k) == (if Past(h) then 1 else 0)
            && (h.pc.Sending? || h.pc.Waiting? ==> Count(bs, k) == 1)
            && (h.pc.Finished? && h.answered == 0 ==> Count(bs, k) == 0)
            && forall b :: b in bs && b.who == k ==>
                 (b.stop <==> h.msg.recordType.Stop?)
                 && forall a :: a in SentBy(t, s, ls, k) ==> a.recordNumber == b.number
  {
    SentIsCommittedIff(t, s, ls, k);
    NeverMissed(t, s, ls, k);
  }

  lemma {:induction false} Counted(bs: seq<Bill>, k: nat) returns (i: nat)
    requires Count(bs, k) > 0
    ensures i < |bs| && bs[i].who == k
  {
    if bs[0].who == k {
      i := 0;
    } else {
      i := Counted(bs[1..], k);
      i := i + 1;
    }
  }

  /** One STOP per life: two STOPs that both go on to send, having found the
      store reachable when they passed it, belong to different lives of the
      session. */
  lemma OneStopPerLife(t: Topology, s: System, ls: seq<Label>, j: nat, k: nat) returns (a: nat, b: nat)
    requires Handled(t, s, ls, j) && Handled(t, s, ls, k) && j != k
    requires var s' := After(t, s, ls);
             && s'.handlers[j].msg.recordType.Stop? && Past(s'.handlers[j]) && Passings(t, s, ls, j, false) == 0
             && s'.handlers[k].msg.recordType.Stop? && Past(s'.handlers[k]) && Passings(t, s, ls, k, false) == 0
    ensures var bs := Billed(t, s, ls, 0, 0, 0);
            && a < |bs| && b < |bs| && bs[a].who == j && bs[b].who == k
            && Count(bs, j) == 1 && Count(bs, k) == 1
            && bs[a].life != bs[b].life
  {
    SentIsCommittedIff(t, s, ls, j);
    SentIsCommittedIff(t, s, ls, k);
    var bs := Billed(t, s, ls, 0, 0, 0);
    a := Counted(bs, j);
    b := Counted(bs, k);
    assert bs[a] in bs && bs[b] in bs;
    if a < b {
      NumbersIncrease(t, s, ls, 0, 0, 0, a, b);
    } else {
      NumbersIncrease(t, s, ls, 0, 0, 0, b, a);
    }
  }

  /** With the store unreachable the handler passes it all the same: an INTERIM
      sends a number that was never committed, and a STOP sends its ACR and
      leaves the record where it is. */
  lemma UnreachableSendsUncommitted(t: Topology, s: System, k: nat)
    requires AllSolitary(t, s) && k < |s.handlers|
    requires s.handlers[k].pc.WriteLocal? || s.handlers[k].pc.EraseLocal?
    ensures var l, h := Access(k, false), s.handlers[k];
            && Enabled(t, s, l) && Passes(t, s, l, k) && !Commits(t, s, l, 0)
            && Apply(t, s, l).replicas == s.replicas
            && var h' := Apply(t, s, l).handlers[k];
               && NumberOf(h') == h.pc.found.recordNumber
               && (h'.pc == Sending(0) || (h.msg.recordType.Stop? && h'.pc == Cancel(h.pc.found)))
  {
    var h := s.handlers[k];
    assert Solitary(h);
    ResumePast(t, h, s.replicas[0], false);
    assert s.replicas[0 := s.replicas[0]] == s.replicas;
  }

  // ----- no resurrection

  /** An INTERIM or STOP that has not got past the store, or was dropped there. */
  predicate Lost(h: Handler) {
    && (h.msg.recordType.Interim? || h.msg.recordType.Stop?)
    && match h.pc
       case FindLocal | WriteLocal(_, _) | EraseLocal(_, _, _) => true
       case Finished => h.answered == 0
       case _ => false
  }

  /** The store accesses after which it is dropped if there is no record. */
  function AccessesLeft(h: Handler): nat {
    match h.pc
    case WriteLocal(_, _) => 2
    case EraseLocal(_, _, _) => 2
    case FindLocal => 1
    case _ => 0
  }

  function AccessesBy(ls: seq<Label>, k: nat): nat {
    if ls == [] then 0 else (if ls[0].Access? && ls[0].who == k then 1 else 0) + AccessesBy(ls[1..], k)
  }

  lemma StepLost(t: Topology, s: System, l: Label, k: nat)
    requires AllSolitary(t, s) && Enabled(t, s, l) && s.replicas[0].entry.None?
    requires k < |s.handlers| && Lost(s.handlers[k])
    requires l.Access? ==> !s.handlers[l.who].msg.recordType.Start? && (l.who == k ==> l.up)
    ensures var s' := Apply(t, s, l);
            && s'.replicas[0].entry.None? && k < |s'.handlers| && Lost(s'.handlers[k])
            && AccessesLeft(s'.handlers[k]) + (if l.Access? && l.who == k then 1 else 0) == AccessesLeft(s.handlers[k])
  {
    OnlyStartOpens(t, s, l, 0);
    if l.Access? && l.who == k {
      assert Solitary(s.handlers[k]) && Disciplined(t, s.replicas, s.handlers[k]);
    }
  }

  /** No resurrection: once the record is gone, an INTERIM or STOP that has not
      committed yet, however far it has got and whatever the others do in
      between, sends no ACR and leaves the store without a record; after at most
      two more accesses it is dropped and its message freed. Only a START can
      change that, and an access of the handler's own to an unreachable store. */
  lemma {:induction false} LosersAreDropped(t: Topology, s: System, ls: seq<Label>, k: nat)
    requires AllSolitary(t, s) && Runs(t, s, ls) && NoStartWrites(t, s, ls)
    requires s.replicas[0].entry.None? && k < |s.handlers| && Lost(s.handlers[k])
    requires forall i :: 0 <= i < |ls| && ls[i].Access? && ls[i].who == k ==> ls[i].up
    ensures var s' := After(t, s, ls);
            && s'.replicas[0].entry.None?
            && SentBy(t, s, ls, k) == []
            && k < |s'.handlers| && Lost(s'.handlers[k])
            && AccessesLeft(s'.handlers[k]) + AccessesBy(ls, k) == AccessesLeft(s.handlers[k]) <= 2
            && (AccessesLeft(s'.handlers[k]) == 0 ==> s'.handlers[k].pc.Finished? && s'.handlers[k].freed == 1)
    decreases |ls|
  {
    if ls == [] {
      assert Solitary(s.handlers[k]);
    } else {
      ApplySolitary(t, s, ls[0]);
      StepLost(t, s, ls[0], k);
      LosersAreDropped(t, Apply(t, s, ls[0]), ls[1..], k);
    }
  }

  /** In the shortest such run the handler just makes its two accesses. */
  lemma LateHandlerIsDropped(t: Topology, s: System, k: nat)
    requires AllSolitary(t, s) && k < |s.handlers| && s.replicas[0].entry.None?
    requires s.handlers[k].pc.WriteLocal? || s.handlers[k].pc.EraseLocal?
    ensures var ls := [Access(k, true), Access(k, true)];
            && Runs(t, s, ls)
            && var s' := After(t, s, ls);
               && |s'.handlers| == |s.handlers|
               && s'.handlers[k].pc.Finished? && s'.handlers[k].freed == 1 && s'.handlers[k].answered == 0
               && s'.replicas == s.replicas && s'.acrs == s.acrs
  {
    var l := Access(k, true);
    var h := s.handlers[k];
    assert Solitary(h) && Disciplined(t, s.replicas, h);
    ApplyShaped(t, s, l);
    var s1 := Apply(t, s, l);
    assert s1.handlers[k].pc.FindLocal? && s1.replicas == s.replicas;
    ApplyShaped(t, s1, l);
    var s2 := Apply(t, s1, l);
    assert s2.replicas == s1.replicas;
    assert [l, l][1..] == [l];
    assert Runs(t, s2, []);
    assert [l][1..] == [];
    assert Runs(t, s1, [l]);
    assert After(t, s1, [l]) == s2;
  }
}
