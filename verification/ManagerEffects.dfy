/** The automaton, undisturbed, does what `ManagerSpec` says, whichever stores
    can be reached. */
module ManagerEffects {
  import opened Wrappers
  import opened Uint32
  import opened Accounting
  import opened Replicas
  import opened SessionStores
  import opened HandlerMachine
  import opened Solo
  import opened ManagerSpec

  lemma WrittenIsRenewed(r: Replica, s: Session)
    ensures Renewed(r, Written(r, s), s)
  {
  }

  lemma BumpIncrements(s: Session)
    ensures Bump(s) == Incremented(s)
  {
  }

  /** The stores from `from` on are as they were. */
  predicate Rest(rs: seq<Replica>, rs': seq<Replica>, from: nat) {
    |rs'| == |rs| && forall i :: from <= i < |rs| ==> rs'[i] == rs[i]
  }

  // ----- handle() when no store that can be reached holds the session

  ghost predicate Seeking(m: Message, failures: nat, rs: seq<Replica>, ups: seq<bool>, sc: Scene) {
    && sc.rs == rs && sc.h.site == 0 && sc.h.msg == m && sc.h.answered == 0 && sc.h.failures == failures
    && (sc.h.pc.FindLocal? || sc.h.pc.FindRemote? || sc.h.pc.Finished?)
  }

  lemma SeekingStep(n: nat, m: Message, failures: nat, rs: seq<Replica>, ups: seq<bool>, sc: Scene)
    requires |rs| == |ups| == n + 1 && NoneReached(rs, ups)
    requires Staged(Star(n), ups, sc) && Seeking(m, failures, rs, ups, sc)
    ensures Seeking(m, failures, rs, ups, Advance(Star(n), ups, sc))
  {
    if AtStore(sc.h) {
      var i := Target(Star(n), sc.h);
      assert !Reached(rs, ups, i);
      assert rs[i := rs[i]] == rs;
    }
  }

  // ----- handle() when store `src` is the first that can be reached and holds it

  /** The first store that holds the session is `src`, and `found` is its session incremented. */
  predicate Source(rs: seq<Replica>, ups: seq<bool>, src: nat, found: Session)
    requires |rs| == |ups|
  {
    FirstReached(rs, ups, src) && found == Incremented(Current(rs[src]))
  }

  ghost predicate Working(m: Message, rs: seq<Replica>, ups: seq<bool>, src: nat, sc: Scene)
    requires |rs| == |ups| && FirstReached(rs, ups, src)
  {
    && |sc.rs| == |rs| && sc.h.site == 0
    && match sc.h.pc
       case FindLocal => sc.rs == rs && sc.h.msg == m
       case FindRemote(k) => sc.rs == rs && sc.h.msg == m && k < src
       case WriteLocal(found, cas) =>
         && sc.rs == rs && sc.h.msg == m && m.recordType.Interim? && Source(rs, ups, src, found)
         && cas == if src == 0 then rs[0].entry.value.version else 0
       case EraseLocal(found, cas, _) =>
         sc.rs == rs && sc.h.msg == m && m.recordType.Stop? && Source(rs, ups, src, found)
       case ReadRemote(k, found) => UpdatingAt(m, rs, ups, src, sc, k, found)
       case WriteRemote(k, found, theirs, cas) =>
         && UpdatingAt(m, rs, ups, src, sc, k, found)
         && k + 1 < |rs| && Copies(rs[k + 1], ups[k + 1], found, theirs, cas)
       case RemoveRemote(k, found) =>
         && sc.h.msg == m && m.recordType.Stop? && Source(rs, ups, src, found)
         && AllDeleted(rs, sc.rs, ups, 0, k + 1) && Rest(rs, sc.rs, k + 1)
       case Cancel(found) =>
         && sc.h.msg == m && m.recordType.Stop? && Source(rs, ups, src, found) && found.timerId != NO_TIMER
         && AllDeleted(rs, sc.rs, ups, 0, |rs|)
       case Sending(w) =>
         && w == 0 && FilledFrom(sc.h.msg, m, Current(rs[src]))
         && if m.recordType.Interim? then AllCounted(rs, sc.rs, ups, Current(rs[src]), 0, |rs|)
            else AllDeleted(rs, sc.rs, ups, 0, |rs|) && Current(rs[src]).timerId == NO_TIMER
       case _ => false
  }

  /** An INTERIM is done with the stores up to `k`. */
  ghost predicate UpdatingAt(m: Message, rs: seq<Replica>, ups: seq<bool>, src: nat, sc: Scene, k: nat, found: Session)
    requires |rs| == |ups| && FirstReached(rs, ups, src) && |sc.rs| == |rs|
  {
    && sc.h.msg == m && m.recordType.Interim? && Source(rs, ups, src, found)
    && AllCounted(rs, sc.rs, ups, Current(rs[src]), 0, k + 1) && Rest(rs, sc.rs, k + 1)
  }

  /** What an INTERIM is about to write to a remote store. */
  predicate Copies(r: Replica, up: bool, found: Session, theirs: Session, cas: nat) {
    if up && Holds(r) then theirs == Incremented(Current(r)) && cas == r.entry.value.version
    else theirs == found && cas == 0
  }

  lemma FindingStep(n: nat, m: Message, rs: seq<Replica>, ups: seq<bool>, src: nat, sc: Scene)
    requires |rs| == |ups| == n + 1 && FirstReached(rs, ups, src) && (m.recordType.Interim? || m.recordType.Stop?)
    requires Staged(Star(n), ups, sc) && Working(m, rs, ups, src, sc) && (sc.h.pc.FindLocal? || sc.h.pc.FindRemote?)
    ensures Working(m, rs, ups, src, Advance(Star(n), ups, sc))
  {
    var i := Target(Star(n), sc.h);
    if i < src {
      assert !Reached(rs, ups, i);
    }
    assert rs[i := rs[i]] == rs;
  }

  lemma CommittingStep(n: nat, m: Message, rs: seq<Replica>, ups: seq<bool>, src: nat, sc: Scene)
    requires |rs| == |ups| == n + 1 && FirstReached(rs, ups, src)
    requires Staged(Star(n), ups, sc) && Working(m, rs, ups, src, sc) && sc.h.pc.WriteLocal?
    ensures Working(m, rs, ups, src, Advance(Star(n), ups, sc))
  {
    assert src > 0 ==> !Reached(rs, ups, 0);
    WrittenIsRenewed(rs[0], sc.h.pc.found);
    assert rs[0 := rs[0]] == rs;
  }

  lemma ErasingStep(n: nat, m: Message, rs: seq<Replica>, ups: seq<bool>, src: nat, sc: Scene)
    requires |rs| == |ups| == n + 1 && FirstReached(rs, ups, src)
    requires Staged(Star(n), ups, sc) && Working(m, rs, ups, src, sc) && sc.h.pc.EraseLocal?
    ensures Working(m, rs, ups, src, Advance(Star(n), ups, sc))
  {
    assert rs[0 := rs[0]] == rs;
  }

  lemma ReadingStep(n: nat, m: Message, rs: seq<Replica>, ups: seq<bool>, src: nat, sc: Scene)
    requires |rs| == |ups| == n + 1 && FirstReached(rs, ups, src)
    requires Staged(Star(n), ups, sc) && Working(m, rs, ups, src, sc) && sc.h.pc.ReadRemote?
    ensures Working(m, rs, ups, src, Advance(Star(n), ups, sc))
  {
    var i := sc.h.pc.next + 1;
    assert sc.rs[i] == rs[i];
    assert sc.rs[i := sc.rs[i]] == sc.rs;
  }

  /** One more store counted. */
  lemma CountedNext(rs: seq<Replica>, rs': seq<Replica>, ups: seq<bool>, s: Session, i: nat, r: Replica)
    requires |rs| == |rs'| == |ups| && i < |rs|
    requires AllCounted(rs, rs', ups, s, 0, i) && Rest(rs, rs', i) && Counted(rs[i], r, ups[i], s)
    ensures AllCounted(rs, rs'[i := r], ups, s, 0, i + 1) && Rest(rs, rs'[i := r], i + 1)
  {
  }

  /** A write to a remote store that does not contend counts there. */
  lemma WriteCounts(r: Replica, up: bool, s: Session, found: Session, theirs: Session, cas: nat)
    requires Copies(r, up, found, theirs, cas) && found == Incremented(s) && !WriteStatus(r, cas, up).DATA_CONTENTION?
    ensures Counted(r, Write(r, theirs, cas, up), up, s)
  {
    WrittenIsRenewed(r, theirs);
  }

  lemma WritingStep(n: nat, m: Message, rs: seq<Replica>, ups: seq<bool>, src: nat, sc: Scene)
    requires |rs| == |ups| == n + 1 && FirstReached(rs, ups, src)
    requires Staged(Star(n), ups, sc) && Working(m, rs, ups, src, sc) && sc.h.pc.WriteRemote?
    ensures Working(m, rs, ups, src, Advance(Star(n), ups, sc))
  {
    var i, pc := sc.h.pc.next + 1, sc.h.pc;
    assert sc.rs[i] == rs[i];
    if WriteStatus(rs[i], pc.cas, ups[i]).DATA_CONTENTION? {
      assert sc.rs[i := sc.rs[i]] == sc.rs;
    } else {
      WriteCounts(rs[i], ups[i], Current(rs[src]), pc.found, pc.theirs, pc.cas);
      CountedNext(rs, sc.rs, ups, Current(rs[src]), i, Write(rs[i], pc.theirs, pc.cas, ups[i]));
    }
  }

  lemma RemovingStep(n: nat, m: Message, rs: seq<Replica>, ups: seq<bool>, src: nat, sc: Scene)
    requires |rs| == |ups| == n + 1 && FirstReached(rs, ups, src)
    requires Staged(Star(n), ups, sc) && Working(m, rs, ups, src, sc) && sc.h.pc.RemoveRemote?
    ensures Working(m, rs, ups, src, Advance(Star(n), ups, sc))
  {
    assert sc.rs[sc.h.pc.next + 1] == rs[sc.h.pc.next + 1];
  }

  lemma WorkingStep(n: nat, m: Message, rs: seq<Replica>, ups: seq<bool>, src: nat, sc: Scene)
    requires |rs| == |ups| == n + 1 && FirstReached(rs, ups, src) && (m.recordType.Interim? || m.recordType.Stop?)
    requires Staged(Star(n), ups, sc) && Working(m, rs, ups, src, sc)
    ensures Working(m, rs, ups, src, Advance(Star(n), ups, sc))
  {
    match sc.h.pc {
      case FindLocal => FindingStep(n, m, rs, ups, src, sc);
      case FindRemote(_) => FindingStep(n, m, rs, ups, src, sc);
      case WriteLocal(_, _) => CommittingStep(n, m, rs, ups, src, sc);
      case EraseLocal(_, _, _) => ErasingStep(n, m, rs, ups, src, sc);
      case ReadRemote(_, _) => ReadingStep(n, m, rs, ups, src, sc);
      case WriteRemote(_, _, _, _) => WritingStep(n, m, rs, ups, src, sc);
      case RemoveRemote(_, _) => RemovingStep(n, m, rs, ups, src, sc);
      case Cancel(_) =>
      case Sending(_) =>
    }
  }

  /** The automaton has handled the message as far as this scene. */
  ghost predicate Handling(m: Message, failures: nat, rs: seq<Replica>, ups: seq<bool>, sc: Scene)
    requires |rs| == |ups|
  {
    if m.recordType.Start? || m.recordType.Event? then
      sc.rs == rs && sc.h.pc == Sending(0) && sc.h.msg == m.(recordNumber := 1)
    else if NoneReached(rs, ups) then Seeking(m, failures, rs, ups, sc)
    else exists src: nat :: FirstReached(rs, ups, src) && Working(m, rs, ups, src, sc)
  }

  /** The handler is at the beginning of `handle`, perhaps not for the first time. */
  predicate Beginning(h: Handler, m: Message) {
    if m.recordType.Interim? || m.recordType.Stop? then
      h.site == 0 && h.msg == m && h.pc.FindLocal? && h.answered == 0
    else h == Begin(0, m)
  }

  lemma {:induction false} FirstOf(rs: seq<Replica>, ups: seq<bool>, k: nat) returns (src: nat)
    requires |rs| == |ups| && k <= |rs| && !NoneReached(rs, ups) && forall j :: 0 <= j < k ==> !Reached(rs, ups, j)
    ensures FirstReached(rs, ups, src)
    decreases |rs| - k
  {
    if k < |rs| && Reached(rs, ups, k) {
      src := k;
    } else {
      src := FirstOf(rs, ups, k + 1);
    }
  }

  lemma {:induction false} HandlesOn(n: nat, m: Message, h0: Handler, rs: seq<Replica>, ups: seq<bool>, k: nat)
    requires |rs| == |ups| == n + 1 && Beginning(h0, m)
    ensures var sc := Iterate(Star(n), ups, Scene(h0, rs), k);
            Staged(Star(n), ups, sc) && Handling(m, h0.failures, rs, ups, sc)
  {
    var start := Scene(h0, rs);
    if k > 0 {
      HandlesOn(n, m, h0, rs, ups, k - 1);
      var sc := Iterate(Star(n), ups, start, k - 1);
      if m.recordType.Interim? || m.recordType.Stop? {
        if NoneReached(rs, ups) {
          SeekingStep(n, m, h0.failures, rs, ups, sc);
        } else {
          var src: nat :| FirstReached(rs, ups, src) && Working(m, rs, ups, src, sc);
          WorkingStep(n, m, rs, ups, src, sc);
        }
      }
    } else if (m.recordType.Interim? || m.recordType.Stop?) && !NoneReached(rs, ups) {
      var src := FirstOf(rs, ups, 0);
      assert Working(m, rs, ups, src, start);
    }
  }

  /** What the automaton leaves to be done, as the session manager does it. */
  predicate Leaves(h: Handler, failures: nat, outcome: ManagerSpec.Handling, asked: seq<TimerRequest>) {
    match outcome
    case Dropped => h.pc.Finished? && h.answered == 0 && asked == []
    case Contending => AtStore(h) && h.failures > failures && asked == []
    case Ready(m) =>
      if h.pc.Cancel? then m == Fill(h, h.pc.found).msg && asked == [Delete(h.pc.found.timerId)]
      else h.pc == Sending(0) && m == h.msg && asked == []
  }

  lemma DoneAsSpecified(m: Message, failures: nat, rs: seq<Replica>, ups: seq<bool>, src: nat, sc: Scene,
                        outcome: ManagerSpec.Handling, asked: seq<TimerRequest>)
    requires |rs| == |ups| && FirstReached(rs, ups, src) && (m.recordType.Interim? || m.recordType.Stop?)
    requires Working(m, rs, ups, src, sc) && Leaves(sc.h, failures, outcome, asked)
    ensures !outcome.Dropped? && (outcome.Contending? ==> asked == [])
    ensures outcome.Ready? ==> DoneWith(m, Current(rs[src]), rs, sc.rs, ups, outcome.msg, asked)
  {
  }

  /** However far the automaton gets undisturbed, what it has done by then is what
      `handle` is to do. */
  lemma HandlesAsSpecified(n: nat, m: Message, h0: Handler, rs: seq<Replica>, ups: seq<bool>, sc: Scene,
                           outcome: ManagerSpec.Handling, asked: seq<TimerRequest>)
    requires |rs| == |ups| == n + 1 && Beginning(h0, m) && Reaches(Star(n), ups, Scene(h0, rs), sc)
    requires Leaves(sc.h, h0.failures, outcome, asked)
    ensures |sc.rs| == |rs| && Handled(m, rs, sc.rs, ups, outcome, asked)
  {
    var k: nat :| Iterate(Star(n), ups, Scene(h0, rs), k) == sc;
    HandlesOn(n, m, h0, rs, ups, k);
    if (m.recordType.Interim? || m.recordType.Stop?) && !NoneReached(rs, ups) {
      var src: nat :| FirstReached(rs, ups, src) && Working(m, rs, ups, src, sc);
      DoneAsSpecified(m, h0.failures, rs, ups, src, sc, outcome, asked);
    }
  }

  // ----- on_ccf_response()

  datatype Sweep = Create(session: Session) | Purge | Retime(timerId: string)

  predicate SweptOne(sweep: Sweep, r: Replica, r': Replica, up: bool) {
    match sweep
    case Create(s) => if up && Fits(r, 0) then Renewed(r, r', s) else r' == r
    case Purge => Deleted(r, r', up)
    case Retime(id) => Retimed(r, r', up, id)
  }

  predicate AllSwept(sweep: Sweep, rs: seq<Replica>, rs': seq<Replica>, ups: seq<bool>, to: nat)
    requires |rs| == |rs'| == |ups|
  {
    forall i :: 0 <= i < to && i < |rs| ==> SweptOne(sweep, rs[i], rs'[i], ups[i])
  }

  lemma SweptNext(sweep: Sweep, rs: seq<Replica>, rs': seq<Replica>, ups: seq<bool>, i: nat, r: Replica)
    requires |rs| == |rs'| == |ups| && i < |rs|
    requires AllSwept(sweep, rs, rs', ups, i) && Rest(rs, rs', i) && SweptOne(sweep, rs[i], r, ups[i])
    ensures AllSwept(sweep, rs, rs'[i := r], ups, i + 1) && Rest(rs, rs'[i := r], i + 1)
  {
  }

  ghost predicate Sweeping(sweep: Sweep, rs: seq<Replica>, ups: seq<bool>, sc: Scene)
    requires |rs| == |ups|
  {
    && |sc.rs| == |rs| && sc.h.site == 0
    && match sc.h.pc
       case Creating(k, s) => sweep == Create(s) && AllSwept(sweep, rs, sc.rs, ups, k) && Rest(rs, sc.rs, k)
       case Purging(k) => sweep == Purge && AllSwept(sweep, rs, sc.rs, ups, k) && Rest(rs, sc.rs, k)
       case RetimeRead(k, id) => sweep == Retime(id) && AllSwept(sweep, rs, sc.rs, ups, k) && Rest(rs, sc.rs, k)
       case RetimeWrite(k, id, theirs, cas) =>
         && sweep == Retime(id) && AllSwept(sweep, rs, sc.rs, ups, k) && Rest(rs, sc.rs, k)
         && k < |rs| && Reached(rs, ups, k)
         && theirs == Current(rs[k]).(timerId := id) && cas == rs[k].entry.value.version
       case Finished => AllSwept(sweep, rs, sc.rs, ups, |rs|)
       case _ => false
  }

  lemma CreatingStep(n: nat, sweep: Sweep, rs: seq<Replica>, ups: seq<bool>, sc: Scene)
    requires |rs| == |ups| == n + 1 && Staged(Star(n), ups, sc) && Sweeping(sweep, rs, ups, sc)
    requires sc.h.pc.Creating? || sc.h.pc.Purging?
    ensures Sweeping(sweep, rs, ups, Advance(Star(n), ups, sc))
  {
    var k := sc.h.pc.next;
    if sc.h.pc.Creating? {
      WrittenIsRenewed(rs[k], sc.h.pc.created);
      SweptNext(sweep, rs, sc.rs, ups, k, Write(rs[k], sc.h.pc.created, 0, ups[k]));
    } else {
      SweptNext(sweep, rs, sc.rs, ups, k, Remove(rs[k], ups[k]));
    }
  }

  lemma SweepingStep(n: nat, sweep: Sweep, rs: seq<Replica>, ups: seq<bool>, sc: Scene)
    requires |rs| == |ups| == n + 1 && Staged(Star(n), ups, sc) && Sweeping(sweep, rs, ups, sc)
    ensures Sweeping(sweep, rs, ups, Advance(Star(n), ups, sc))
  {
    match sc.h.pc {
      case Creating(_, _) =>
        CreatingStep(n, sweep, rs, ups, sc);
      case Purging(_) =>
        CreatingStep(n, sweep, rs, ups, sc);
      case RetimeRead(k, id) =>
        assert sc.rs[k := sc.rs[k]] == sc.rs;
        if !Reached(rs, ups, k) {
          SweptNext(sweep, rs, sc.rs, ups, k, rs[k]);
        }
      case RetimeWrite(k, _, theirs, cas) =>
        WrittenIsRenewed(rs[k], theirs);
        SweptNext(sweep, rs, sc.rs, ups, k, Write(rs[k], theirs, cas, ups[k]));
      case Finished =>
    }
  }

  lemma {:induction false} SweepsOn(n: nat, sweep: Sweep, rs: seq<Replica>, ups: seq<bool>, h: Handler, k: nat)
    requires |rs| == |ups| == n + 1 && Staged(Star(n), ups, Scene(h, rs)) && Sweeping(sweep, rs, ups, Scene(h, rs))
    ensures var sc := Iterate(Star(n), ups, Scene(h, rs), k);
            Staged(Star(n), ups, sc) && Sweeping(sweep, rs, ups, sc)
  {
    if k > 0 {
      SweepsOn(n, sweep, rs, ups, h, k - 1);
      SweepingStep(n, sweep, rs, ups, Iterate(Star(n), ups, Scene(h, rs), k - 1));
    }
  }

  /** Where the automaton stands once Chronos, if it was asked, has replied. */
  function Resumed(t: Topology, h: Handler, reply: Option<string>): Handler
    requires h.site < |t.remotes|
  {
    if h.pc.Arming? then Armed(t, h, reply) else h
  }

  /** The Chronos request that the automaton makes in this state. */
  function RequestOf(h: Handler): seq<TimerRequest> {
    if !h.pc.Arming? then []
    else if OldTimer(h.msg) == NO_TIMER then [Post(h.pc.interval, h.msg.refreshTime, h.msg.ref)]
    else [Put(h.msg.timerId, h.pc.interval, h.msg.refreshTime, h.msg.ref)]
  }

  lemma AsksAsSpecified(t: Topology, h: Handler, accepted: bool, answered: uint32, sessionId: string, rc: int)
    requires h.site < |t.remotes|
    ensures RequestOf(Respond(t, h, accepted, answered, sessionId, rc)) == Asked(h.msg, accepted, answered, rc)
  {
  }

  /** The automaton ends with the stores as `on_ccf_response` is to leave them. */
  lemma RespondsAsSpecified(n: nat, h: Handler, accepted: bool, answered: uint32, sessionId: string, rc: int,
                            reply: Option<string>, rs: seq<Replica>, ups: seq<bool>, sc: Scene)
    requires |rs| == |ups| == n + 1 && h.site == 0
    requires Reaches(Star(n), ups, Scene(Resumed(Star(n), Respond(Star(n), h, accepted, answered, sessionId, rc), reply), rs), sc)
    requires sc.h.pc.Finished?
    ensures |sc.rs| == |rs| && Responded(accepted, answered, sessionId, rc, h.msg, reply, rs, sc.rs, ups)
  {
    var t := Star(n);
    var h0 := Resumed(t, Respond(t, h, accepted, answered, sessionId, rc), reply);
    var k: nat :| Iterate(t, ups, Scene(h0, rs), k) == sc;
    var sweep := match h0.pc
      case Creating(_, s) => Create(s)
      case RetimeRead(_, id) => Retime(id)
      case _ => Purge;
    if h0.pc.Finished? {
      RepeatFixed(Stepper(t, ups), Scene(h0, rs), k);
    } else {
      SweepsOn(n, sweep, rs, ups, h0, k);
    }
  }
}
