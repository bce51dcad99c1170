/** What each kind of handler does to the replicas when all stores are
    reachable and nobody else writes: the effect on every replica at once. */
module Undisturbed {
  import opened Accounting
  import opened CStrings
  import opened Replicas
  import opened HandlerMachine
  import opened Solo

  function AllUp(n: nat): (ups: seq<bool>)
    ensures |ups| == n + 1 && forall i :: 0 <= i <= n ==> ups[i]
  {
    seq(n + 1, _ => true)
  }

  /** The replicas from index `from` on, changed by `f`. */
  function Swept(rs: seq<Replica>, f: Replica -> Replica, from: nat): (r: seq<Replica>)
    ensures |r| == |rs|
    ensures forall i :: 0 <= i < |rs| ==> r[i] == if i < from then rs[i] else f(rs[i])
  {
    seq(|rs|, i requires 0 <= i < |rs| => if i < from then rs[i] else f(rs[i]))
  }

  lemma SweptOneMore(rs: seq<Replica>, f: Replica -> Replica, k: nat)
    requires k < |rs|
    ensures Swept(rs[k := f(rs[k])], f, k + 1) == Swept(rs, f, k)
  {
  }

  lemma SweptNothing(rs: seq<Replica>, f: Replica -> Replica)
    ensures Swept(rs, f, |rs|) == rs
  {
  }

  ghost predicate Leads(n: nat, h: Handler, rs: seq<Replica>, h': Handler, rs': seq<Replica>) {
    Reaches(Star(n), AllUp(n), Scene(h, rs), Scene(h', rs'))
  }

  lemma LeadsOn(n: nat, h: Handler, rs: seq<Replica>, h1: Handler, rs1: seq<Replica>, h2: Handler, rs2: seq<Replica>)
    requires Leads(n, h, rs, h1, rs1) && Leads(n, h1, rs1, h2, rs2)
    ensures Leads(n, h, rs, h2, rs2)
  {
    ReachesOn(Star(n), AllUp(n), Scene(h, rs), Scene(h1, rs1), Scene(h2, rs2));
  }

  lemma LeadsNowhere(n: nat, h: Handler, rs: seq<Replica>)
    ensures Leads(n, h, rs, h, rs)
  {
    ReachesItself(Star(n), AllUp(n), Scene(h, rs));
  }

  /** One access of the `i`-th store. */
  lemma LeadsNext(n: nat, h: Handler, rs: seq<Replica>, i: nat)
    requires |rs| == n + 1 && InRange(Star(n), h) && AtStore(h) && i == Target(Star(n), h)
    ensures i <= n && InRange(Star(n), Resume(Star(n), h, rs[i], true))
    ensures Leads(n, h, rs, Resume(Star(n), h, rs[i], true), rs[i := Effect(h, rs[i], true)])
  {
    LeadsNowhere(n, h, rs);
    ReachesNext(Star(n), AllUp(n), Scene(h, rs), h, rs, i);
  }

  lemma {:induction false} SiteKeptBy(n: nat, sc: Scene, k: nat)
    requires sc.h.site == 0
    ensures Iterate(Star(n), AllUp(n), sc, k).h.site == 0
  {
    if k > 0 {
      SiteKeptBy(n, sc, k - 1);
      AdvanceKeeps(Star(n), AllUp(n), Iterate(Star(n), AllUp(n), sc, k - 1));
    }
  }

  lemma SiteKept(n: nat, h: Handler, rs: seq<Replica>, h': Handler, rs': seq<Replica>)
    requires h.site == 0 && Leads(n, h, rs, h', rs')
    ensures h'.site == 0
  {
    var k: nat :| Iterate(Star(n), AllUp(n), Scene(h, rs), k) == Scene(h', rs');
    SiteKeptBy(n, Scene(h, rs), k);
  }

  lemma {:induction false} FailuresGrow(n: nat, sc: Scene, k: nat, j: nat)
    requires k <= j
    ensures Iterate(Star(n), AllUp(n), sc, k).h.failures <= Iterate(Star(n), AllUp(n), sc, j).h.failures
    decreases j
  {
    if k < j {
      FailuresGrow(n, sc, k, j - 1);
      AdvanceKeeps(Star(n), AllUp(n), Iterate(Star(n), AllUp(n), sc, j - 1));
    }
  }

  lemma AdvanceKeeps(t: Topology, ups: seq<bool>, sc: Scene)
    ensures sc.h.failures <= Advance(t, ups, sc).h.failures && Advance(t, ups, sc).h.site == sc.h.site
  {
  }

  /** On the way to its end an undisturbed handler has failed at most as often as at the end. */
  lemma FailuresOnTheWay(n: nat, h: Handler, rs: seq<Replica>, h1: Handler, rs1: seq<Replica>, h2: Handler, rs2: seq<Replica>)
    requires Leads(n, h, rs, h1, rs1) && Leads(n, h, rs, h2, rs2) && !AtStore(h2)
    ensures h1.failures <= h2.failures
  {
    var k: nat :| Iterate(Star(n), AllUp(n), Scene(h, rs), k) == Scene(h1, rs1);
    var j: nat :| Iterate(Star(n), AllUp(n), Scene(h, rs), j) == Scene(h2, rs2);
    if k <= j {
      FailuresGrow(n, Scene(h, rs), k, j);
    } else {
      RepeatTwice(Stepper(Star(n), AllUp(n)), Scene(h, rs), j, k - j);
      RepeatFixed(Stepper(Star(n), AllUp(n)), Scene(h2, rs2), k - j);
    }
  }

  // ----- sweeps over all stores

  /** The handler ends with the replicas as given. */
  ghost predicate Ends(n: nat, h: Handler, rs: seq<Replica>, rs': seq<Replica>) {
    exists h': Handler :: h'.pc.Finished? && Leads(n, h, rs, h', rs')
  }

  lemma EndsOn(n: nat, h: Handler, rs: seq<Replica>, h1: Handler, rs1: seq<Replica>, rs2: seq<Replica>)
    requires Leads(n, h, rs, h1, rs1) && Ends(n, h1, rs1, rs2)
    ensures Ends(n, h, rs, rs2)
  {
    var h': Handler :| h'.pc.Finished? && Leads(n, h1, rs1, h', rs2);
    LeadsOn(n, h, rs, h1, rs1, h', rs2);
  }

  function Creator(s: Session): Replica -> Replica {
    r => Write(r, s, 0, true)
  }

  /** START: every store that has no record takes the new session. */
  lemma {:induction false} CreateSweep(n: nat, h: Handler, rs: seq<Replica>, s: Session, k: nat)
    requires |rs| == n + 1 && h.site == 0 && k <= n && h.pc == Creating(k, s)
    ensures Ends(n, h, rs, Swept(rs, Creator(s), k))
    decreases n - k
  {
    var f := Creator(s);
    LeadsNext(n, h, rs, k);
    var h1, rs1 := Resume(Star(n), h, rs[k], true), rs[k := f(rs[k])];
    SweptOneMore(rs, f, k);
    if k < n {
      CreateSweep(n, h1, rs1, s, k + 1);
      EndsOn(n, h, rs, h1, rs1, Swept(rs1, f, k + 1));
    } else {
      SweptNothing(rs1, f);
    }
  }

  function Purger(): Replica -> Replica {
    r => Emptied(r)
  }

  /** A 5002 answer: every store loses its record. */
  lemma {:induction false} PurgeSweep(n: nat, h: Handler, rs: seq<Replica>, k: nat)
    requires |rs| == n + 1 && h.site == 0 && k <= n && h.pc == Purging(k)
    ensures Ends(n, h, rs, Swept(rs, Purger(), k))
    decreases n - k
  {
    var f := Purger();
    LeadsNext(n, h, rs, k);
    var h1, rs1 := Resume(Star(n), h, rs[k], true), rs[k := f(rs[k])];
    SweptOneMore(rs, f, k);
    if k < n {
      PurgeSweep(n, h1, rs1, k + 1);
      EndsOn(n, h, rs, h1, rs1, Swept(rs1, f, k + 1));
    } else {
      SweptNothing(rs1, f);
    }
  }

  function Retimer(id: string): Replica -> Replica {
    r => if Holds(r) then Written(r, Current(r).(timerId := id)) else r
  }

  /** A new timer id: every store that holds the session takes it. */
  lemma {:induction false} RetimeSweep(n: nat, h: Handler, rs: seq<Replica>, id: string, k: nat)
    requires |rs| == n + 1 && h.site == 0 && k <= n && h.pc == RetimeRead(k, id)
    ensures Ends(n, h, rs, Swept(rs, Retimer(id), k))
    decreases n - k
  {
    var f := Retimer(id);
    LeadsNext(n, h, rs, k);
    var h1 := Resume(Star(n), h, rs[k], true);
    assert rs[k := rs[k]] == rs;
    var h2, rs2 := h1, rs;
    if Holds(rs[k]) {
      LeadsNext(n, h1, rs, k);
      h2, rs2 := Resume(Star(n), h1, rs[k], true), rs[k := f(rs[k])];
      LeadsOn(n, h, rs, h1, rs, h2, rs2);
    }
    assert rs2 == rs[k := f(rs[k])];
    SweptOneMore(rs, f, k);
    if k < n {
      RetimeSweep(n, h2, rs2, id, k + 1);
      EndsOn(n, h, rs, h2, rs2, Swept(rs2, f, k + 1));
    } else {
      SweptNothing(rs2, f);
    }
  }

  function Updater(s: Session): Replica -> Replica {
    r => Written(r, if Holds(r) then Bump(Current(r)) else s)
  }

  /** The message filled from `s` is about to be sent, and no write has failed on the way. */
  predicate SendsAfter(h': Handler, h: Handler, s: Session) {
    h'.pc == Sending(0) && h'.msg == FillMessage(h.msg, s) && h'.failures == h.failures
  }

  /** INTERIM, after the local commit: every remote store increments its record,
      or takes a copy if it has none; then the ACR is sent. */
  lemma {:induction false} UpdateSweep(n: nat, h: Handler, rs: seq<Replica>, s: Session, k: nat)
    requires |rs| == n + 1 && h.site == 0 && k < n && h.pc == ReadRemote(k, s)
    requires forall i :: 0 <= i <= n ==> Clean(rs[i])
    ensures exists h': Handler :: SendsAfter(h', h, s) && Leads(n, h, rs, h', Swept(rs, Updater(s), k + 1))
    decreases n - k
  {
    var f, i := Updater(s), k + 1;
    assert Clean(rs[i]);
    var h2 := UpdateStep(n, h, rs, s, k);
    var rs2 := rs[i := f(rs[i])];
    SweptOneMore(rs, f, i);
    if i < n {
      UpdateSweep(n, h2, rs2, s, k + 1);
      var h': Handler :| SendsAfter(h', h2, s) && Leads(n, h2, rs2, h', Swept(rs2, f, i + 1));
      LeadsOn(n, h, rs, h2, rs2, h', Swept(rs2, f, i + 1));
      assert SendsAfter(h', h, s);
    } else {
      SweptNothing(rs2, f);
      assert SendsAfter(h2, h, s) && Leads(n, h, rs, h2, rs2);
    }
  }

  /** One remote store: the read and the write that follows it. */
  lemma UpdateStep(n: nat, h: Handler, rs: seq<Replica>, s: Session, k: nat) returns (h2: Handler)
    requires |rs| == n + 1 && h.site == 0 && k < n && h.pc == ReadRemote(k, s) && Clean(rs[k + 1])
    ensures Leads(n, h, rs, h2, rs[k + 1 := Updater(s)(rs[k + 1])])
    ensures h2.site == 0 && h2.failures == h.failures && h2 == UpdateFrom(Star(n), h2.(msg := h.msg), k + 1, s)
  {
    var i := k + 1;
    LeadsNext(n, h, rs, i);
    var h1 := Resume(Star(n), h, rs[i], true);
    assert rs[i := rs[i]] == rs;
    LeadsNext(n, h1, rs, i);
    h2 := Resume(Star(n), h1, rs[i], true);
    LeadsOn(n, h, rs, h1, rs, h2, rs[i := Updater(s)(rs[i])]);
  }

  /** What is left to do after a STOP has cleared the stores. */
  predicate Cleared(h: Handler, m: Message, s: Session) {
    if s.timerId != NO_TIMER then h.pc == Cancel(s) && h.msg == m
    else h.pc == Sending(0) && h.msg == FillMessage(m, s)
  }

  /** STOP, after the local deletion: every remote store loses its record. */
  lemma {:induction false} RemoveSweep(n: nat, h: Handler, rs: seq<Replica>, s: Session, k: nat)
    requires |rs| == n + 1 && h.site == 0 && k < n && h.pc == RemoveRemote(k, s)
    ensures exists h': Handler :: Cleared(h', h.msg, s) && Leads(n, h, rs, h', Swept(rs, Purger(), k + 1))
    decreases n - k
  {
    var f, i := Purger(), k + 1;
    LeadsNext(n, h, rs, i);
    var h1, rs1 := Resume(Star(n), h, rs[i], true), rs[i := f(rs[i])];
    SweptOneMore(rs, f, i);
    if i < n {
      RemoveSweep(n, h1, rs1, s, k + 1);
      var h': Handler :| Cleared(h', h1.msg, s) && Leads(n, h1, rs1, h', Swept(rs1, f, i + 1));
      LeadsOn(n, h, rs, h1, rs1, h', Swept(rs1, f, i + 1));
    } else {
      SweptNothing(rs1, f);
      assert Cleared(h1, h.msg, s) && Leads(n, h, rs, h1, rs1);
    }
  }

  // ----- finding the session

  /** The first store, in the order they are asked, that holds the session. */
  function Holder(rs: seq<Replica>): (k: nat)
    requires exists i :: 0 <= i < |rs| && Holds(rs[i])
    ensures k < |rs| && Holds(rs[k])
    ensures forall i :: 0 <= i < k ==> !Holds(rs[i])
    decreases |rs|
  {
    if Holds(rs[0]) then 0 else
      assert exists i :: 0 <= i < |rs[1..]| && Holds(rs[1..][i]) by {
        var i :| 0 <= i < |rs| && Holds(rs[i]);
        assert rs[1..][i - 1] == rs[i];
      }
      var k := Holder(rs[1..]);
      assert forall i :: 0 < i <= k ==> rs[i] == rs[1..][i - 1];
      k + 1
  }

  ghost predicate SomeHolds(rs: seq<Replica>) {
    exists i :: 0 <= i < |rs| && Holds(rs[i])
  }

  /** The handler has found the session at store `k`. */
  predicate FoundAt(h: Handler, m: Message, rs: seq<Replica>, k: nat)
    requires k < |rs| && Holds(rs[k])
  {
    var s := Bump(Current(rs[k]));
    && h.site == 0 && h.msg == m
    && h.pc == if m.recordType.Interim? then WriteLocal(s, if k == 0 then rs[k].entry.value.version else 0)
               else EraseLocal(s, rs[k].entry.value.version, k)
  }

  lemma {:induction false} FindRemoteLeads(n: nat, h: Handler, rs: seq<Replica>, j: nat, k: nat)
    requires |rs| == n + 1 && h.site == 0 && j < n && h.pc == FindRemote(j)
    requires j < k <= n && Holds(rs[k]) && forall i :: j < i < k ==> !Holds(rs[i])
    ensures exists h': Handler :: FoundAt(h', h.msg, rs, k) && h'.failures == h.failures && Leads(n, h, rs, h', rs)
    decreases n - j
  {
    LeadsNext(n, h, rs, j + 1);
    var h1 := Resume(Star(n), h, rs[j + 1], true);
    assert rs[j + 1 := rs[j + 1]] == rs;
    if j + 1 < k {
      assert !Holds(rs[j + 1]);
      FindRemoteLeads(n, h1, rs, j + 1, k);
      var h': Handler :| FoundAt(h', h1.msg, rs, k) && h'.failures == h1.failures && Leads(n, h1, rs, h', rs);
      LeadsOn(n, h, rs, h1, rs, h', rs);
    }
  }

  lemma FindLeads(n: nat, h: Handler, rs: seq<Replica>)
    requires |rs| == n + 1 && h.site == 0 && h.pc == FindLocal && SomeHolds(rs)
    ensures exists h': Handler :: FoundAt(h', h.msg, rs, Holder(rs)) && h'.failures == h.failures && Leads(n, h, rs, h', rs)
  {
    var k := Holder(rs);
    LeadsNext(n, h, rs, 0);
    var h1 := Resume(Star(n), h, rs[0], true);
    assert rs[0 := rs[0]] == rs;
    if k > 0 {
      assert !Holds(rs[0]);
      FindRemoteLeads(n, h1, rs, 0, k);
      var h': Handler :| FoundAt(h', h1.msg, rs, k) && h'.failures == h1.failures && Leads(n, h1, rs, h', rs);
      LeadsOn(n, h, rs, h1, rs, h', rs);
    }
  }

  // ----- whole handlers

  /** The session that an INTERIM or STOP works with. */
  ghost function Working(rs: seq<Replica>): Session
    requires SomeHolds(rs)
  {
    Bump(Current(rs[Holder(rs)]))
  }

  lemma UpdatesLead(n: nat, h: Handler, rs: seq<Replica>, s: Session, h0: Handler, rs0: seq<Replica>)
    requires |rs| == n + 1 && h.site == 0 && AllClean(rs) && h.failures == h0.failures
    requires h == UpdateFrom(Star(n), h.(msg := h0.msg), 0, s) && Leads(n, h0, rs0, h, rs)
    ensures exists h': Handler :: SendsAfter(h', h0, s) && Leads(n, h0, rs0, h', Swept(rs, Updater(s), 1))
  {
    if n > 0 {
      UpdateSweep(n, h, rs, s, 0);
      var h': Handler :| SendsAfter(h', h, s) && Leads(n, h, rs, h', Swept(rs, Updater(s), 1));
      LeadsOn(n, h0, rs0, h, rs, h', Swept(rs, Updater(s), 1));
    } else {
      SweptNothing(rs, Updater(s));
      assert SendsAfter(h, h0, s) && Leads(n, h0, rs0, h, rs);
    }
  }

  /** The whole effect of an INTERIM: it sends the number one above that of the
      first store that holds the session; every store that held it counts one
      more, and every other store takes the incremented copy. */
  lemma InterimEffect(n: nat, m: Message, rs: seq<Replica>)
    requires m.recordType.Interim? && |rs| == n + 1 && AllClean(rs) && SomeHolds(rs)
    ensures var s := Working(rs);
            exists h': Handler :: SendsAfter(h', Begin(0, m), s)
                                  && Leads(n, Begin(0, m), rs, h', Swept(rs, Updater(s), 0))
  {
    var h0, k, s := Begin(0, m), Holder(rs), Working(rs);
    FindLeads(n, h0, rs);
    var h1: Handler :| FoundAt(h1, m, rs, k) && h1.failures == h0.failures && Leads(n, h0, rs, h1, rs);
    assert Clean(rs[0]);
    LeadsNext(n, h1, rs, 0);
    var h2, rs2 := Resume(Star(n), h1, rs[0], true), rs[0 := Updater(s)(rs[0])];
    assert Effect(h1, rs[0], true) == Updater(s)(rs[0]);
    LeadsOn(n, h0, rs, h1, rs, h2, rs2);
    UpdatesLead(n, h2, rs2, s, h0, rs);
    SweptOneMore(rs, Updater(s), 0);
  }

  lemma RemovalsLead(n: nat, h: Handler, rs: seq<Replica>, s: Session, h0: Handler, rs0: seq<Replica>)
    requires |rs| == n + 1 && h.site == 0
    requires h == RemoveFrom(Star(n), h.(msg := h0.msg), 0, s) && Leads(n, h0, rs0, h, rs)
    ensures exists h': Handler :: Cleared(h', h0.msg, s) && Leads(n, h0, rs0, h', Swept(rs, Purger(), 1))
  {
    if n > 0 {
      RemoveSweep(n, h, rs, s, 0);
      var h': Handler :| Cleared(h', h.msg, s) && Leads(n, h, rs, h', Swept(rs, Purger(), 1));
      LeadsOn(n, h0, rs0, h, rs, h', Swept(rs, Purger(), 1));
    } else {
      SweptNothing(rs, Purger());
      assert Cleared(h, h0.msg, s) && Leads(n, h0, rs0, h, rs);
    }
  }

  /** The whole effect of a STOP whose local store holds the session: the number
      is one more, and no store keeps a record. */
  lemma StopEffect(n: nat, m: Message, rs: seq<Replica>)
    requires m.recordType.Stop? && |rs| == n + 1 && Holds(rs[0])
    ensures var s := Bump(Current(rs[0]));
            exists h': Handler :: Cleared(h', m, s) && Leads(n, Begin(0, m), rs, h', Swept(rs, Purger(), 0))
  {
    var h0, s := Begin(0, m), Bump(Current(rs[0]));
    LeadsNext(n, h0, rs, 0);
    var h1 := Resume(Star(n), h0, rs[0], true);
    assert rs[0 := rs[0]] == rs;
    LeadsNext(n, h1, rs, 0);
    var h2, rs2 := Resume(Star(n), h1, rs[0], true), rs[0 := Purger()(rs[0])];
    LeadsOn(n, h0, rs, h1, rs, h2, rs2);
    RemovalsLead(n, h2, rs2, s, h0, rs);
    SweptOneMore(rs, Purger(), 0);
  }

  lemma {:induction false} DropLeads(n: nat, h: Handler, rs: seq<Replica>, j: nat)
    requires |rs| == n + 1 && h.site == 0 && j < n && h.pc == FindRemote(j) && h.answered == 0
    requires forall i :: j < i <= n ==> !Holds(rs[i])
    ensures exists h': Handler :: h'.pc.Finished? && h'.answered == 0 && Leads(n, h, rs, h', rs)
    decreases n - j
  {
    LeadsNext(n, h, rs, j + 1);
    var h1 := Resume(Star(n), h, rs[j + 1], true);
    assert rs[j + 1 := rs[j + 1]] == rs;
    if j + 1 < n {
      DropLeads(n, h1, rs, j + 1);
      var h': Handler :| h'.pc.Finished? && h'.answered == 0 && Leads(n, h1, rs, h', rs);
      LeadsOn(n, h, rs, h1, rs, h', rs);
    }
  }

  /** An INTERIM or STOP for a session that no store holds is dropped. */
  lemma UnknownIsDropped(n: nat, m: Message, rs: seq<Replica>)
    requires (m.recordType.Interim? || m.recordType.Stop?) && |rs| == n + 1 && !SomeHolds(rs)
    ensures exists h': Handler :: h'.pc.Finished? && h'.answered == 0 && Leads(n, Begin(0, m), rs, h', rs)
  {
    var h0 := Begin(0, m);
    assert !Holds(rs[0]);
    LeadsNext(n, h0, rs, 0);
    var h1 := Resume(Star(n), h0, rs[0], true);
    assert rs[0 := rs[0]] == rs;
    if n > 0 {
      DropLeads(n, h1, rs, 0);
      var h': Handler :| h'.pc.Finished? && h'.answered == 0 && Leads(n, h1, rs, h', rs);
      LeadsOn(n, h0, rs, h1, rs, h', rs);
    }
  }

  /** The handler has sent the incremented session, and every store holds it. */
  ghost predicate Healed(n: nat, m: Message, rs: seq<Replica>, s: Session, h': Handler, rs': seq<Replica>) {
    && SendsAfter(h', Begin(0, m), Bump(s))
    && Leads(n, Begin(0, m), rs, h', rs')
    && |rs'| == n + 1 && forall i :: 0 <= i <= n ==> Holds(rs'[i]) && Current(rs'[i]) == Bump(s)
  }

  /** Replica healing: if any of the stores hold the session and those that do
      agree, one INTERIM leaves all of them holding it, incremented and
      otherwise unchanged, and the ACR carries the incremented number. */
  lemma InterimHeals(n: nat, m: Message, rs: seq<Replica>, s: Session)
    requires m.recordType.Interim? && |rs| == n + 1 && SomeHolds(rs)
    requires NulFree(s) && Expiry(s.refreshTime) > 0
    requires forall i :: 0 <= i <= n && rs[i].entry.Some? ==> Holds(rs[i]) && Current(rs[i]) == s
    ensures exists h', rs' :: Healed(n, m, rs, s, h', rs')
  {
    InterimEffect(n, m, rs);
    assert Working(rs) == Bump(s);
    CanonExact(Bump(s));
    var rs' := Swept(rs, Updater(Bump(s)), 0);
    var h': Handler :| SendsAfter(h', Begin(0, m), Bump(s)) && Leads(n, Begin(0, m), rs, h', rs');
    assert Healed(n, m, rs, s, h', rs');
  }
}
