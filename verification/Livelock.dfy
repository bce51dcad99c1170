/** When an undisturbed INTERIM or STOP gets past the stores at all. With every
    store reachable there are two families of replicas on which `handle`
    contends with itself forever; outside them it always ends. */
module Livelock {
  import opened Accounting
  import opened Replicas
  import opened HandlerMachine
  import opened Solo
  import opened Undisturbed
  import opened Viewpoint

  /** The handler gets past the stores: the message is dropped or sent. */
  ghost predicate GetsThrough(n: nat, m: Message, rs: seq<Replica>) {
    exists h': Handler, rs' :: !AtStore(h') && Leads(n, Begin(0, m), rs, h', rs')
  }

  ghost predicate AllSound(rs: seq<Replica>) {
    forall i :: 0 <= i < |rs| ==> Sound(rs[i])
  }

  // ----- STOP

  /** The version under which the first store that holds the session has it. */
  ghost function FoundVersion(rs: seq<Replica>): nat
    requires SomeHolds(rs)
  {
    rs[Holder(rs)].entry.value.version
  }

  /** A STOP whose CAS value, wherever it was read, is not the one of the local
      store goes round for ever. */
  ghost predicate StopStuck(n: nat, rs: seq<Replica>, sc: Scene) {
    && |rs| == n + 1 && SomeHolds(rs) && !Matches(rs[0], FoundVersion(rs))
    && sc.rs == rs && sc.h.site == 0 && sc.h.msg.recordType.Stop?
    && match sc.h.pc
       case FindLocal => true
       case FindRemote(j) => j < Holder(rs)
       case EraseLocal(_, cas, from) => cas == FoundVersion(rs) && from <= n
       case _ => false
  }

  lemma StopStuckStep(n: nat, rs: seq<Replica>, sc: Scene)
    requires StopStuck(n, rs, sc)
    ensures Staged(Star(n), AllUp(n), sc) && StopStuck(n, rs, Advance(Star(n), AllUp(n), sc))
  {
    var i := Target(Star(n), sc.h);
    if sc.h.pc.FindRemote? && i < Holder(rs) {
      assert !Holds(rs[i]);
    }
    assert rs[i := rs[i]] == rs;
  }

  lemma {:induction false} StopStuckForever(n: nat, rs: seq<Replica>, sc: Scene, k: nat)
    requires StopStuck(n, rs, sc)
    ensures StopStuck(n, rs, Iterate(Star(n), AllUp(n), sc, k))
  {
    if k > 0 {
      StopStuckForever(n, rs, sc, k - 1);
      StopStuckStep(n, rs, Iterate(Star(n), AllUp(n), sc, k - 1));
    }
  }

  /** A STOP whose CAS value happens to be that of the local store gets through. */
  lemma StopPasses(n: nat, m: Message, rs: seq<Replica>)
    requires m.recordType.Stop? && |rs| == n + 1 && SomeHolds(rs) && Matches(rs[0], FoundVersion(rs))
    ensures GetsThrough(n, m, rs)
  {
    var h0, s := Begin(0, m), Working(rs);
    FindLeads(n, h0, rs);
    var h1: Handler :| FoundAt(h1, m, rs, Holder(rs)) && h1.failures == h0.failures && Leads(n, h0, rs, h1, rs);
    LeadsNext(n, h1, rs, 0);
    var h2, rs2 := Resume(Star(n), h1, rs[0], true), rs[0 := Emptied(rs[0])];
    LeadsOn(n, h0, rs, h1, rs, h2, rs2);
    RemovalsLead(n, h2, rs2, s, h0, rs);
    var h': Handler :| Cleared(h', m, s) && Leads(n, h0, rs, h', Swept(rs2, Purger(), 1));
  }

  /** A STOP ends exactly when no store holds the session or the CAS value under
      which it is found is the one of the local store. */
  lemma StopEndsIff(n: nat, m: Message, rs: seq<Replica>)
    requires m.recordType.Stop? && |rs| == n + 1
    ensures GetsThrough(n, m, rs) <==> !SomeHolds(rs) || Matches(rs[0], FoundVersion(rs))
  {
    if !SomeHolds(rs) {
      UnknownIsDropped(n, m, rs);
    } else if Matches(rs[0], FoundVersion(rs)) {
      StopPasses(n, m, rs);
    } else {
      forall h': Handler, rs' | Leads(n, Begin(0, m), rs, h', rs')
        ensures AtStore(h')
      {
        var k: nat :| Iterate(Star(n), AllUp(n), Scene(Begin(0, m), rs), k) == Scene(h', rs');
        StopStuckForever(n, rs, Scene(Begin(0, m), rs), k);
      }
    }
  }

  /** With every record readable: exactly when the local store holds the session or no store does. */
  lemma ReadableStopEndsIff(n: nat, m: Message, rs: seq<Replica>)
    requires m.recordType.Stop? && |rs| == n + 1 && AllClean(rs) && AllSound(rs)
    ensures GetsThrough(n, m, rs) <==> Holds(rs[0]) || !SomeHolds(rs)
  {
    StopEndsIff(n, m, rs);
    assert Clean(rs[0]);
    if SomeHolds(rs) {
      assert Sound(rs[Holder(rs)]);
    }
  }

  // ----- INTERIM

  predicate Garbled(r: Replica) {
    r.entry.Some? && r.entry.value.content.Unreadable?
  }

  /** An INTERIM that has found the session but has a store with a record that
      does not deserialize goes round for ever: it tries to add to that store. */
  ghost predicate InterimStuck(n: nat, rs: seq<Replica>, b: nat, sc: Scene) {
    && |rs| == |sc.rs| == n + 1 && AllSound(rs) && SomeHolds(rs) && b <= n && Garbled(rs[b])
    && sc.rs[b] == rs[b] && sc.h.site == 0 && sc.h.msg.recordType.Interim?
    && (b == 0 || Clean(rs[0]))
    && match sc.h.pc
       case FindLocal => sc.rs == rs
       case FindRemote(j) => sc.rs == rs && j < Holder(rs)
       case WriteLocal(_, cas) => sc.rs == rs && (b == 0 ==> cas == 0)
       case ReadRemote(j, _) => j < b
       case WriteRemote(j, _, _, cas) => j < b && (j + 1 == b ==> cas == 0)
       case _ => false
  }

  lemma InterimStuckFinding(n: nat, rs: seq<Replica>, b: nat, sc: Scene)
    requires InterimStuck(n, rs, b, sc) && (sc.h.pc.FindLocal? || sc.h.pc.FindRemote?)
    ensures Staged(Star(n), AllUp(n), sc) && InterimStuck(n, rs, b, Advance(Star(n), AllUp(n), sc))
  {
    var i := Target(Star(n), sc.h);
    if i < Holder(rs) {
      assert !Holds(rs[i]);
    }
    assert rs[i := rs[i]] == rs;
  }

  lemma InterimStuckWriting(n: nat, rs: seq<Replica>, b: nat, sc: Scene)
    requires InterimStuck(n, rs, b, sc) && !sc.h.pc.FindLocal? && !sc.h.pc.FindRemote?
    ensures Staged(Star(n), AllUp(n), sc) && InterimStuck(n, rs, b, Advance(Star(n), AllUp(n), sc))
  {
    var i := Target(Star(n), sc.h);
    assert Sound(rs[b]);
    if sc.h.pc.ReadRemote? {
      assert sc.rs[i := sc.rs[i]] == sc.rs;
    }
  }

  lemma InterimStuckStep(n: nat, rs: seq<Replica>, b: nat, sc: Scene)
    requires InterimStuck(n, rs, b, sc)
    ensures Staged(Star(n), AllUp(n), sc) && InterimStuck(n, rs, b, Advance(Star(n), AllUp(n), sc))
  {
    if sc.h.pc.FindLocal? || sc.h.pc.FindRemote? {
      InterimStuckFinding(n, rs, b, sc);
    } else {
      InterimStuckWriting(n, rs, b, sc);
    }
  }

  lemma {:induction false} InterimStuckForever(n: nat, rs: seq<Replica>, b: nat, sc: Scene, k: nat)
    requires InterimStuck(n, rs, b, sc)
    ensures InterimStuck(n, rs, b, Iterate(Star(n), AllUp(n), sc, k))
  {
    if k > 0 {
      InterimStuckForever(n, rs, b, sc, k - 1);
      InterimStuckStep(n, rs, b, Iterate(Star(n), AllUp(n), sc, k - 1));
    }
  }

  /** An INTERIM ends exactly when no store holds the session or every record is readable. */
  lemma InterimEndsIff(n: nat, m: Message, rs: seq<Replica>)
    requires m.recordType.Interim? && |rs| == n + 1 && AllSound(rs)
    ensures GetsThrough(n, m, rs) <==> !SomeHolds(rs) || AllClean(rs)
  {
    if !SomeHolds(rs) {
      UnknownIsDropped(n, m, rs);
    } else if AllClean(rs) {
      InterimEffect(n, m, rs);
    } else {
      var b := if Garbled(rs[0]) then 0 else var b: nat :| b <= n && !Clean(rs[b]); b;
      forall h': Handler, rs' | Leads(n, Begin(0, m), rs, h', rs')
        ensures AtStore(h')
      {
        var k: nat :| Iterate(Star(n), AllUp(n), Scene(Begin(0, m), rs), k) == Scene(h', rs');
        InterimStuckForever(n, rs, b, Scene(Begin(0, m), rs), k);
      }
    }
  }

  // ----- at any site

  ghost predicate GetsThroughAt(t: Topology, site: nat, m: Message, rs: seq<Replica>)
    requires site < |t.remotes|
  {
    exists h': Handler, rs' :: !AtStore(h') && Goes(t, Begin(site, m), rs, h', rs')
  }

  /** Both conditions apply at every site, the stores taken in the order in which it asks them. */
  lemma SameAnywhere(t: Topology, site: nat, m: Message, rs: seq<Replica>)
    requires site < |t.remotes| && Fit(t, Begin(site, m), rs)
    ensures GetsThroughAt(t, site, m, rs) <==> GetsThrough(|Remotes(t, site)|, m, Seen(Places(t, site), rs))
  {
    PlacesTour(t, site);
    var n, order, h0 := |Remotes(t, site)|, Places(t, site), Begin(site, m);
    if GetsThroughAt(t, site, m, rs) {
      var h': Handler, rs' :| !AtStore(h') && Goes(t, h0, rs, h', rs');
      GoesAtCentre(t, h0, rs, h', rs');
      assert !AtStore(Centred(t, h')) && Leads(n, Begin(0, m), Seen(order, rs), Centred(t, h'), Seen(order, rs'));
    }
    if GetsThrough(n, m, Seen(order, rs)) {
      var c: Handler, cs :| !AtStore(c) && Leads(n, Begin(0, m), Seen(order, rs), c, cs);
      var h', rs' := CentreGoes(t, h0, rs, c, cs);
      assert !AtStore(h') && Goes(t, h0, rs, h', rs');
    }
  }
}
