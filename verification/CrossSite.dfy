/** What two sites can do that one cannot: send the same record number, stop a
    session twice, and bring a stopped session back. */
module CrossSite {
  import opened Wrappers
  import opened Uint32
  import opened Accounting
  import opened CStrings
  import opened Replicas
  import opened HandlerMachine
  import opened Failover
  import opened Protocol
  import opened CasDiscipline
  import opened Convergence
  import Numbering

  /** After a benign run, handler `k` is about to commit to its local store. */
  ghost predicate AboutToCommit(t: Topology, s: System, ls: seq<Label>, s': System, k: nat) {
    && BenignRun(t, s, ls, s') && Shaped(t, s')
    && k < |s'.handlers| && s'.handlers[k].site < |t.remotes|
    && Enabled(t, s', Access(k, true)) && Numbering.Commits(t, s', Access(k, true), s'.handlers[k].site)
  }

  /** What the store of site `w` has counted up to. */
  ghost function Height(t: Topology, s: System, s': System, w: nat): nat
    requires Convergence.Start(t, s) && Shaped(t, s') && w < |s.replicas|
  {
    Numbers(s)[w] + CommitCount(t, s'.handlers, w)
  }

  /** The number is one above the starting number of that store plus the INTERIMs
      that have committed there, from whichever sites. */
  lemma CommittedNumber(t: Topology, s: System, ls: seq<Label>, s': System, k: nat)
    requires AboutToCommit(t, s, ls, s', k)
    ensures s'.handlers[k].pc.found.recordNumber == Wrap(Height(t, s, s', s'.handlers[k].site) + 1)
  {
    StaysSteady(t, s, ls, s');
    var w := s'.handlers[k].site;
    SteadyAt(t, s', Numbers(s), w);
    assert Calm(s'.handlers[k]) && Disciplined(t, s'.replicas, s'.handlers[k]);
    NextWrap(Height(t, s, s', w));
  }

  /** Two commits, at any sites and moments of benign runs, take the same number
      exactly if the two stores have then counted equally far modulo 2^32. */
  lemma SitesRepeatIff(t: Topology, s: System, ls1: seq<Label>, s1: System, j: nat, ls2: seq<Label>, s2: System, k: nat)
    requires AboutToCommit(t, s, ls1, s1, j) && AboutToCommit(t, s, ls2, s2, k)
    ensures s1.handlers[j].pc.found.recordNumber == s2.handlers[k].pc.found.recordNumber
            <==> (Height(t, s, s2, s2.handlers[k].site) - Height(t, s, s1, s1.handlers[j].site)) % LIMIT == 0
  {
    CommittedNumber(t, s, ls1, s1, j);
    CommittedNumber(t, s, ls2, s2, k);
    WrapsAlike(Height(t, s, s1, s1.handlers[j].site) + 1, Height(t, s, s2, s2.handlers[k].site) + 1);
  }

  // ----- a run in which it happens

  /** Two sites, each the other's remote. */
  const PAIR := Topology([[1], [0]])

  function Update(ref: CallRef): Message {
    NewMessage(ref, Interim, false, 0, [])
  }

  function Empty(): System {
    System([Replica(None, 0), Replica(None, 0)], [], [], [], {}, false)
  }

  /** The run from the empty system leads to `s`. */
  ghost predicate Takes(ls: seq<Label>, s: System) {
    Shaped(PAIR, Empty()) && Runs(PAIR, Empty(), ls) && After(PAIR, Empty(), ls) == s
  }

  lemma TakesNext(ls: seq<Label>, s: System, l: Label) returns (ls': seq<Label>, s': System)
    requires Takes(ls, s) && Enabled(PAIR, s, l)
    ensures Shaped(PAIR, s) && s' == Apply(PAIR, s, l)
    ensures Takes(ls', s')
  {
    OneMore(Empty(), ls, s, l);
    ls', s' := ls + [l], Apply(PAIR, s, l);
  }

  lemma {:induction false} OneMore(s: System, ls: seq<Label>, s1: System, l: Label)
    requires Shaped(PAIR, s) && Runs(PAIR, s, ls) && After(PAIR, s, ls) == s1 && Enabled(PAIR, s1, l)
    ensures Runs(PAIR, s, ls + [l]) && After(PAIR, s, ls + [l]) == Apply(PAIR, s1, l)
    decreases |ls|
  {
    if ls == [] {
      ApplyShaped(PAIR, s, l);
      assert [l][1..] == [];
      assert Runs(PAIR, Apply(PAIR, s, l), []);
      assert ls + [l] == [l];
    } else {
      ApplyShaped(PAIR, s, ls[0]);
      assert (ls + [l])[0] == ls[0] && (ls + [l])[1..] == ls[1..] + [l];
      OneMore(Apply(PAIR, s, ls[0]), ls[1..], s1, l);
    }
  }

  /** A START that a CDF accepts without asking for interim records. */
  predicate Opening(m: Message) {
    Parsed(m) && m.recordType.Start? && Expiry(m.refreshTime) > 0
  }

  /** The session that it creates, counted up to `number`. */
  function Record(m: Message, sid: string, number: uint32): Session {
    Canon(NewSession(m.(recordNumber := 1), sid, NO_TIMER, m.refreshTime)).(recordNumber := number)
  }

  function Stored(s: Session, version: nat): Replica {
    Replica(Some(Entry(Readable(s), version)), version)
  }

  /** A START at site 0 is accepted. */
  lemma Accepted(m: Message, sid: string) returns (ls: seq<Label>, s: System)
    requires Opening(m)
    ensures Takes(ls, s) && s.replicas == Empty().replicas && |s.handlers| == 1 && InRange(PAIR, s.handlers[0])
    ensures s.handlers[0].site == 0
    ensures s.handlers[0].pc == Creating(0, NewSession(m.(recordNumber := 1), sid, NO_TIMER, m.refreshTime))
  {
    ls, s := [], Empty();
    ls, s := TakesNext(ls, s, Arrive(0, m));
    ls, s := TakesNext(ls, s, Send(0));
    ls, s := TakesNext(ls, s, Answer(0, SUCCESS, 0, sid));
  }

  /** It creates the session at both sites. */
  lemma CreatedOnBoth(m: Message, sid: string) returns (ls: seq<Label>, s: System)
    requires Opening(m)
    ensures Takes(ls, s) && |s.handlers| == 1
    ensures s.replicas == [Stored(Record(m, sid, 1), 1), Stored(Record(m, sid, 1), 1)]
  {
    ls, s := Accepted(m, sid);
    ls, s := TakesNext(ls, s, Access(0, true));
    assert s.replicas == [Stored(Record(m, sid, 1), 1), Replica(None, 0)];
    ls, s := TakesNext(ls, s, Access(0, true));
  }

  /** An INTERIM or STOP comes to site `w`, which reads its own store. */
  lemma ReadAt(ls0: seq<Label>, s0: System, w: nat, m: Message) returns (ls: seq<Label>, s: System)
    requires Takes(ls0, s0) && |s0.replicas| == 2 && w < 2 && Holds(s0.replicas[w])
    requires Parsed(m) && (m.recordType.Interim? || m.recordType.Stop?)
    ensures Takes(ls, s) && s.replicas == s0.replicas
    ensures var found, version := Bump(Current(s0.replicas[w])), s0.replicas[w].entry.value.version;
            s.handlers == s0.handlers + [Handler(w, m, if m.recordType.Interim? then WriteLocal(found, version)
                                                       else EraseLocal(found, version, w), 0, 0, 0, 1)]
  {
    ls, s := TakesNext(ls0, s0, Arrive(w, m));
    ls, s := TakesNext(ls, s, Access(|s0.handlers|, true));
  }

  /** Handler `k` commits to its own store. */
  lemma CommitAt(ls0: seq<Label>, s0: System, k: nat) returns (ls: seq<Label>, s: System)
    requires Takes(ls0, s0) && |s0.replicas| == 2 && k < |s0.handlers| && s0.handlers[k].site < 2
    requires s0.handlers[k].pc.WriteLocal? && Matches(s0.replicas[s0.handlers[k].site], s0.handlers[k].pc.cas)
    ensures Takes(ls, s)
    ensures var h := s0.handlers[k];
            && s.replicas == s0.replicas[h.site := Written(s0.replicas[h.site], h.pc.found)]
            && s.handlers == s0.handlers[k := h.(pc := ReadRemote(0, h.pc.found), accesses := h.accesses + 1)]
  {
    ls, s := TakesNext(ls0, s0, Access(k, true));
  }

  /** Handler `k` increments the record at the other site. */
  lemma UpdateOther(ls0: seq<Label>, s0: System, k: nat) returns (ls: seq<Label>, s: System)
    requires Takes(ls0, s0) && |s0.replicas| == 2 && k < |s0.handlers| && s0.handlers[k].site < 2
    requires s0.handlers[k].pc.ReadRemote? && s0.handlers[k].pc.next == 0 && Holds(s0.replicas[1 - s0.handlers[k].site])
    requires Expiry(Current(s0.replicas[1 - s0.handlers[k].site]).refreshTime) > 0
    ensures Takes(ls, s) && |s.handlers| == |s0.handlers| && |s.replicas| == 2
    ensures s.replicas[s0.handlers[k].site] == s0.replicas[s0.handlers[k].site]
    ensures s.handlers == s0.handlers[k := s.handlers[k]]
    ensures s.handlers[k].pc == Sending(0) && s.handlers[k].msg == FillMessage(s0.handlers[k].msg, s0.handlers[k].pc.found)
  {
    ls, s := TakesNext(ls0, s0, Access(k, true));
    ls, s := TakesNext(ls, s, Access(k, true));
  }

  /** Handler `k` at site `w` has committed `found` there and turns to the other site. */
  predicate Committing(s: System, k: nat, w: nat, m: Message, found: Session) {
    && |s.replicas| == 2 && w < 2 && Settled(s.replicas[1 - w])
    && k < |s.handlers| && s.handlers[k].site == w && s.handlers[k].msg == m && s.handlers[k].pc == ReadRemote(0, found)
  }

  /** An INTERIM at each site reads and commits the same number. */
  lemma CommittedBoth(ls0: seq<Label>, s0: System, ref: CallRef, record: Session) returns (ls: seq<Label>, s: System)
    requires Takes(ls0, s0) && s0.replicas == [Stored(record, 1), Stored(record, 1)] && |s0.handlers| == 1
    requires Expiry(record.refreshTime) > 0
    ensures Takes(ls, s) && |s.handlers| == 3
    ensures Committing(s, 1, 0, Update(ref), Bump(record)) && Committing(s, 2, 1, Update(ref), Bump(record))
  {
    ls, s := ReadAt(ls0, s0, 0, Update(ref));
    ls, s := ReadAt(ls, s, 1, Update(ref));
    ls, s := CommitAt(ls, s, 1);
    assert s.replicas[1] == Stored(record, 1);
    ls, s := CommitAt(ls, s, 2);
  }

  predicate Sends(s: System, k: nat, m: Message, found: Session) {
    k < |s.handlers| && s.handlers[k].pc == Sending(0) && s.handlers[k].msg == FillMessage(m, found)
  }

  /** Then each increments the other's record. */
  lemma UpdatedBoth(ls0: seq<Label>, s0: System, m: Message, found: Session) returns (ls: seq<Label>, s: System)
    requires Takes(ls0, s0) && Committing(s0, 1, 0, m, found) && Committing(s0, 2, 1, m, found)
    ensures Takes(ls, s) && Sends(s, 1, m, found) && Sends(s, 2, m, found)
  {
    ls, s := UpdateOther(ls0, s0, 1);
    ls, s := UpdateOther(ls, s, 2);
  }

  lemma SendAt(ls0: seq<Label>, s0: System, k: nat, m: Message, record: Session)
    returns (ls: seq<Label>, s: System)
    requires Takes(ls0, s0) && Sends(s0, k, m, record) && record.ccfs != []
    ensures Takes(ls, s) && |s.handlers| == |s0.handlers| && s.handlers == s0.handlers[k := s.handlers[k]]
    ensures s.acrs == s0.acrs + [Acr(record.sessionId, record.ccfs[0], record.recordNumber, m.recordType)]
  {
    ls, s := TakesNext(ls0, s0, Send(k));
  }

  lemma SentByBoth(ls0: seq<Label>, s0: System, m: Message, found: Session) returns (ls: seq<Label>, s: System)
    requires Takes(ls0, s0) && Sends(s0, 1, m, found) && Sends(s0, 2, m, found) && found.ccfs != []
    ensures Takes(ls, s) && |s.acrs| >= 2
    ensures var acr := Acr(found.sessionId, found.ccfs[0], found.recordNumber, m.recordType);
            s.acrs[|s.acrs| - 2] == acr && s.acrs[|s.acrs| - 1] == acr
  {
    ls, s := SendAt(ls0, s0, 1, m, found);
    ls, s := SendAt(ls, s, 2, m, found);
  }

  lemma PairIsProper()
    ensures Complete(PAIR) && Initial(PAIR, Empty())
  {
    assert ListsOthers([1], 0, 2) && ListsOthers([0], 1, 2);
  }

  /** Numbers are not distinct across sites: from an empty system, for every
      START, two INTERIMs of its session at two sites send the number 2 twice. */
  lemma SitesSendOneNumberTwice(m: Message, sid: string) returns (ls: seq<Label>, s: System)
    requires Opening(m)
    ensures Complete(PAIR) && Initial(PAIR, Empty()) && Takes(ls, s)
    ensures var n := |s.acrs|;
            && n >= 2 && s.acrs[n - 1] == s.acrs[n - 2]
            && s.acrs[n - 1].recordNumber == 2 && s.acrs[n - 1].recordType.Interim?
  {
    PairIsProper();
    ls, s := CreatedOnBoth(m, sid);
    var record := Record(m, sid, 1);
    ls, s := CommittedBoth(ls, s, m.ref, record);
    ls, s := UpdatedBoth(ls, s, Update(m.ref), Bump(record));
    ls, s := SentByBoth(ls, s, Update(m.ref), Bump(record));
  }

  // ----- STOPs at two sites

  function Halt(ref: CallRef): Message {
    NewMessage(ref, RecordType.Stop, false, 0, [])
  }

  /** Handler `k` at site `w`, a STOP, has erased the record there. */
  predicate Erasing(s: System, k: nat, w: nat, m: Message, found: Session) {
    && |s.replicas| == 2 && w < 2 && s.replicas[w].entry.None?
    && k < |s.handlers| && s.handlers[k].site == w && s.handlers[k].msg == m && s.handlers[k].pc == RemoveRemote(0, found)
  }

  lemma RecordHasNoTimer(m: Message, sid: string)
    ensures Record(m, sid, 1).timerId == NO_TIMER
  {
    CStrOfNulFree(NO_TIMER);
  }

  lemma EraseAt(ls0: seq<Label>, s0: System, k: nat) returns (ls: seq<Label>, s: System)
    requires Takes(ls0, s0) && |s0.replicas| == 2 && k < |s0.handlers| && s0.handlers[k].site < 2
    requires s0.handlers[k].pc.EraseLocal? && Matches(s0.replicas[s0.handlers[k].site], s0.handlers[k].pc.cas)
    ensures Takes(ls, s) && |s.handlers| == |s0.handlers| && s.handlers == s0.handlers[k := s.handlers[k]]
    ensures Erasing(s, k, s0.handlers[k].site, s0.handlers[k].msg, s0.handlers[k].pc.found)
    ensures s.replicas[1 - s0.handlers[k].site] == s0.replicas[1 - s0.handlers[k].site]
    ensures s.handlers[k].answered == s0.handlers[k].answered
  {
    ls, s := TakesNext(ls0, s0, Access(k, true));
  }

  /** Then it removes the other record, and its session has no timer. */
  lemma RemoveOther(ls0: seq<Label>, s0: System, k: nat, w: nat, m: Message, found: Session)
    returns (ls: seq<Label>, s: System)
    requires Takes(ls0, s0) && Erasing(s0, k, w, m, found) && found.timerId == NO_TIMER
    ensures Takes(ls, s) && |s.replicas| == 2 && s.replicas[0].entry.None? && s.replicas[1].entry.None?
    ensures |s.handlers| == |s0.handlers| && s.handlers == s0.handlers[k := s.handlers[k]] && Sends(s, k, m, found)
    ensures s.handlers[k].site == w && s.handlers[k].answered == s0.handlers[k].answered
  {
    ls, s := TakesNext(ls0, s0, Access(k, true));
  }

  lemma ErasedBoth(ls0: seq<Label>, s0: System, m: Message, record: Session) returns (ls: seq<Label>, s: System)
    requires Takes(ls0, s0) && s0.replicas == [Stored(record, 1), Stored(record, 1)] && |s0.handlers| == 1
    requires Parsed(m) && m.recordType.Stop?
    ensures Takes(ls, s) && Erasing(s, 1, 0, m, Bump(record)) && Erasing(s, 2, 1, m, Bump(record))
  {
    ls, s := ReadAt(ls0, s0, 0, m);
    ls, s := ReadAt(ls, s, 1, m);
    ls, s := EraseAt(ls, s, 1);
    ls, s := EraseAt(ls, s, 2);
  }

  lemma RemovedBoth(ls0: seq<Label>, s0: System, m: Message, found: Session) returns (ls: seq<Label>, s: System)
    requires Takes(ls0, s0) && Erasing(s0, 1, 0, m, found) && Erasing(s0, 2, 1, m, found) && found.timerId == NO_TIMER
    ensures Takes(ls, s) && Sends(s, 1, m, found) && Sends(s, 2, m, found)
  {
    ls, s := RemoveOther(ls0, s0, 1, 0, m, found);
    ls, s := RemoveOther(ls, s, 2, 1, m, found);
  }

  /** A session can be stopped twice: from an empty system, for every START, a
      STOP at each of two sites erases the record there, and both send. */
  lemma SitesSendTwoStops(m: Message, sid: string) returns (ls: seq<Label>, s: System)
    requires Opening(m)
    ensures Complete(PAIR) && Initial(PAIR, Empty()) && Takes(ls, s)
    ensures var n := |s.acrs|;
            && n >= 2 && s.acrs[n - 1] == s.acrs[n - 2]
            && s.acrs[n - 1].recordNumber == 2 && s.acrs[n - 1].recordType.Stop?
  {
    PairIsProper();
    ls, s := CreatedOnBoth(m, sid);
    var record, halt := Record(m, sid, 1), Halt(m.ref);
    RecordHasNoTimer(m, sid);
    ls, s := ErasedBoth(ls, s, halt, record);
    ls, s := RemovedBoth(ls, s, halt, Bump(record));
    ls, s := SentByBoth(ls, s, halt, Bump(record));
  }

  /** At one store, though, whatever the topology and whatever fails, two STOPs
      that have committed end different lives of the record. */
  lemma StopsOfOneStore(t: Topology, s: System, ls: seq<Label>, w: nat, life: nat, height: nat, i: nat, j: nat)
    requires Shaped(t, s) && Runs(t, s, ls) && AllDisciplined(t, s)
    requires w < |t.remotes| && Numbering.Tallied(s.replicas[w], height)
    requires i < j < |Numbering.Billed(t, s, ls, w, life, height)|
    requires Numbering.Billed(t, s, ls, w, life, height)[i].stop
    ensures Numbering.Billed(t, s, ls, w, life, height)[i].life < Numbering.Billed(t, s, ls, w, life, height)[j].life
  {
    Numbering.NumbersIncrease(t, s, ls, w, life, height, i, j);
  }

  // ----- a STOP undone

  /** An INTERIM has committed at site 0 and not yet turned to site 1. */
  lemma CommittedAtOne(ls0: seq<Label>, s0: System, m: Message, record: Session) returns (ls: seq<Label>, s: System)
    requires Takes(ls0, s0) && s0.replicas == [Stored(record, 1), Stored(record, 1)] && |s0.handlers| == 1
    requires Expiry(record.refreshTime) > 0 && NulFree(record) && Parsed(m) && m.recordType.Interim?
    ensures Takes(ls, s) && |s.handlers| == 2 && Committing(s, 1, 0, m, Bump(record))
    ensures s.replicas == [Stored(Bump(record), 2), Stored(record, 1)]
  {
    CanonExact(Bump(record));
    ls, s := ReadAt(ls0, s0, 0, m);
    ls, s := CommitAt(ls, s, 1);
  }

  /** A STOP at site 0 deletes both records and its ACR is sent and answered. */
  lemma StoppedMeanwhile(ls0: seq<Label>, s0: System, m: Message, found: Session) returns (ls: seq<Label>, s: System)
    requires Takes(ls0, s0) && |s0.replicas| == 2 && |s0.handlers| == 2 && s0.replicas[0] == Stored(found, 2)
    requires Parsed(m) && m.recordType.Stop? && found.timerId == NO_TIMER && found.ccfs != []
    ensures Takes(ls, s) && |s.replicas| == 2 && s.replicas[0].entry.None? && s.replicas[1].entry.None?
    ensures |s.handlers| == 3 && s.handlers[1] == s0.handlers[1]
    ensures s.handlers[2].msg.recordType.Stop? && s.handlers[2].pc.Finished? && s.handlers[2].answered == 1
  {
    ls, s := ReadAt(ls0, s0, 0, m);
    ls, s := EraseAt(ls, s, 2);
    ls, s := RemoveOther(ls, s, 2, 0, m, Bump(found));
    ls, s := AnswerAt(ls, s, 2, m, Bump(found));
  }

  lemma AnswerAt(ls0: seq<Label>, s0: System, k: nat, m: Message, found: Session) returns (ls: seq<Label>, s: System)
    requires Takes(ls0, s0) && Sends(s0, k, m, found) && found.ccfs != [] && m.recordType.Stop?
    requires s0.handlers[k].site < 2 && s0.handlers[k].answered == 0
    ensures Takes(ls, s) && s.replicas == s0.replicas
    ensures |s.handlers| == |s0.handlers| && s.handlers == s0.handlers[k := s.handlers[k]]
    ensures s.handlers[k].msg.recordType.Stop? && s.handlers[k].pc.Finished? && s.handlers[k].answered == 1
  {
    ls, s := TakesNext(ls0, s0, Send(k));
    ls, s := TakesNext(ls, s, Answer(k, SUCCESS, 0, ""));
  }

  /** The INTERIM finds no record at site 1 and adds its own. */
  lemma AddOther(ls0: seq<Label>, s0: System, k: nat, found: Session) returns (ls: seq<Label>, s: System)
    requires Takes(ls0, s0) && |s0.replicas| == 2 && k < |s0.handlers| && s0.handlers[k].site == 0
    requires s0.handlers[k].pc == ReadRemote(0, found) && s0.replicas[1].entry.None? && Expiry(found.refreshTime) > 0
    ensures Takes(ls, s) && |s.replicas| == 2 && Holds(s.replicas[1])
    ensures |s.handlers| == |s0.handlers| && s.handlers == s0.handlers[k := s.handlers[k]]
  {
    ls, s := TakesNext(ls0, s0, Access(k, true));
    ls, s := TakesNext(ls, s, Access(k, true));
  }

  /** A deleted session can come back: from an empty system, for every START,
      there is a run in which a STOP is handled to its end and
      a store holds the session afterwards. */
  lemma InterimUndoesStop(m: Message, sid: string) returns (ls: seq<Label>, s: System)
    requires Opening(m)
    ensures Complete(PAIR) && Initial(PAIR, Empty()) && Takes(ls, s)
    ensures exists k :: 0 <= k < |s.handlers| && s.handlers[k].msg.recordType.Stop?
                        && s.handlers[k].pc.Finished? && s.handlers[k].answered == 1
    ensures |s.replicas| == 2 && Holds(s.replicas[1])
  {
    PairIsProper();
    ls, s := CreatedOnBoth(m, sid);
    var record := Record(m, sid, 1);
    RecordHasNoTimer(m, sid);
    ls, s := CommittedAtOne(ls, s, Update(m.ref), record);
    ls, s := StoppedMeanwhile(ls, s, Halt(m.ref), Bump(record));
    ls, s := AddOther(ls, s, 1, Bump(record));
    assert s.handlers[2].msg.recordType.Stop?;
  }
}
