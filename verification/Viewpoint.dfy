/** A handler seen from its own site. At any site of a complete topology the
    handler does what it would do at site 0 of a star, where the stores are
    numbered in the order in which this site asks them. So whatever `Undisturbed`
    says of the star holds at every site. */
module Viewpoint {
  import opened Accounting
  import opened CStrings
  import opened Replicas
  import opened HandlerMachine
  import opened Solo
  import opened Undisturbed

  /** The order asks every store once. */
  ghost predicate Tours(order: seq<nat>, stores: nat) {
    && (forall i :: 0 <= i < |order| ==> order[i] < stores)
    && (forall i, j :: 0 <= i < j < |order| ==> order[i] != order[j])
    && (forall x: nat :: x < stores ==> x in order)
  }

  lemma PlacesTour(t: Topology, site: nat)
    requires Complete(t) && Sited(t) && site < |t.remotes|
    ensures Tours(Places(t, site), |t.remotes|)
  {
    var order, list := Places(t, site), t.remotes[site];
    assert ListsOthers(list, site, |t.remotes|);
    forall x: nat | x < |t.remotes|
      ensures x in order
    {
      assert order[0] == site;
      if x != site {
        assert x in list;
        var k :| 0 <= k < |list| && list[k] == x;
        assert order[k + 1] == x;
      }
    }
  }

  /** What belongs to the stores, in the order in which they are asked. */
  function Seen<T>(order: seq<nat>, xs: seq<T>): (r: seq<T>)
    requires forall i :: 0 <= i < |order| ==> order[i] < |xs|
    ensures |r| == |order| && forall i :: 0 <= i < |order| ==> r[i] == xs[order[i]]
  {
    seq(|order|, i requires 0 <= i < |order| => xs[order[i]])
  }

  lemma SeenUpdate<T>(order: seq<nat>, xs: seq<T>, i: nat, x: T)
    requires Tours(order, |xs|) && i < |order|
    ensures Seen(order, xs[order[i] := x]) == Seen(order, xs)[i := x]
  {
  }

  function Position(order: seq<nat>, x: nat): (i: nat)
    requires x in order
    ensures i < |order| && order[i] == x
  {
    if order[0] == x then 0 else 1 + Position(order[1..], x)
  }

  lemma PositionOf(order: seq<nat>, stores: nat, i: nat)
    requires Tours(order, stores) && i < |order|
    ensures Position(order, order[i]) == i
  {
    var j := Position(order, order[i]);
    assert order[j] == order[i];
  }

  /** The handler as it would be at site 0 of the star. */
  ghost function Centred(t: Topology, h: Handler): (c: Handler)
    requires InRange(t, h) && Tours(Places(t, h.site), |t.remotes|)
    ensures InRange(Star(|Remotes(t, h.site)|), c) && AtStore(c) == AtStore(h)
    ensures c.site == 0 && c.msg == h.msg && c.failures == h.failures && c.answered == h.answered
    ensures !h.pc.EraseLocal? ==> c.pc == h.pc
  {
    match h.pc
    case EraseLocal(s, cas, from) =>
      h.(site := 0, pc := EraseLocal(s, cas, Position(Places(t, h.site), from)))
    case _ => h.(site := 0)
  }

  ghost function CentredScene(t: Topology, sc: Scene): (c: Scene)
    requires InRange(t, sc.h) && |sc.rs| == |t.remotes| && Tours(Places(t, sc.h.site), |t.remotes|)
  {
    Scene(Centred(t, sc.h), Seen(Places(t, sc.h.site), sc.rs))
  }

  lemma CentredTarget(t: Topology, h: Handler)
    requires Sited(t) && InRange(t, h) && AtStore(h) && Tours(Places(t, h.site), |t.remotes|)
    ensures var i := Target(Star(|Remotes(t, h.site)|), Centred(t, h));
            i < |Places(t, h.site)| && Places(t, h.site)[i] == Target(t, h)
  {
  }

  lemma CentredFind(t: Topology, h: Handler, r: Replica, up: bool)
    requires Sited(t) && InRange(t, h) && Tours(Places(t, h.site), |t.remotes|)
    requires h.pc.FindLocal? || h.pc.FindRemote?
    ensures var h' := Resume(t, h, r, up);
            && InRange(t, h') && h'.site == h.site
            && Centred(t, h') == Resume(Star(|Remotes(t, h.site)|), Centred(t, h), r, up)
  {
    ResumeInRange(t, h, r, up);
    PositionOf(Places(t, h.site), |t.remotes|, if h.pc.FindRemote? then h.pc.next + 1 else 0);
  }

  lemma CentredResume(t: Topology, h: Handler, r: Replica, up: bool)
    requires Sited(t) && InRange(t, h) && AtStore(h) && Tours(Places(t, h.site), |t.remotes|)
    ensures var h' := Resume(t, h, r, up);
            && InRange(t, h') && h'.site == h.site
            && Centred(t, h') == Resume(Star(|Remotes(t, h.site)|), Centred(t, h), r, up)
  {
    ResumeInRange(t, h, r, up);
    if h.pc.FindLocal? || h.pc.FindRemote? {
      CentredFind(t, h, r, up);
    }
  }

  lemma CentredAdvance(t: Topology, ups: seq<bool>, sc: Scene)
    requires Staged(t, ups, sc) && Tours(Places(t, sc.h.site), |t.remotes|)
    ensures var sc' := Advance(t, ups, sc);
            && sc'.h.site == sc.h.site
            && CentredScene(t, sc')
               == Advance(Star(|Remotes(t, sc.h.site)|), Seen(Places(t, sc.h.site), ups), CentredScene(t, sc))
  {
    if AtStore(sc.h) {
      var order := Places(t, sc.h.site);
      var i := Target(Star(|Remotes(t, sc.h.site)|), Centred(t, sc.h));
      CentredTarget(t, sc.h);
      CentredResume(t, sc.h, sc.rs[order[i]], ups[order[i]]);
      SeenUpdate(order, sc.rs, i, Effect(sc.h, sc.rs[order[i]], ups[order[i]]));
    }
  }

  /** The site at which a message is handled makes no difference. */
  lemma {:induction false} CentredIterate(t: Topology, ups: seq<bool>, sc: Scene, k: nat)
    requires Staged(t, ups, sc) && Tours(Places(t, sc.h.site), |t.remotes|)
    ensures var sc' := Iterate(t, ups, sc, k);
            && Staged(t, ups, sc') && sc'.h.site == sc.h.site
            && CentredScene(t, sc')
               == Iterate(Star(|Remotes(t, sc.h.site)|), Seen(Places(t, sc.h.site), ups), CentredScene(t, sc), k)
  {
    if k > 0 {
      CentredIterate(t, ups, sc, k - 1);
      CentredAdvance(t, ups, Iterate(t, ups, sc, k - 1));
    }
  }

  // ----- all stores reachable

  ghost predicate Goes(t: Topology, h: Handler, rs: seq<Replica>, h': Handler, rs': seq<Replica>)
    requires |t.remotes| > 0
  {
    Reaches(t, AllUp(|t.remotes| - 1), Scene(h, rs), Scene(h', rs'))
  }

  ghost predicate Fit(t: Topology, h: Handler, rs: seq<Replica>) {
    Complete(t) && Sited(t) && |rs| == |t.remotes| > 0 && InRange(t, h)
  }

  lemma SeenAllUp(t: Topology, site: nat)
    requires site < |t.remotes| && Tours(Places(t, site), |t.remotes|)
    ensures Seen(Places(t, site), AllUp(|t.remotes| - 1)) == AllUp(|Remotes(t, site)|)
  {
  }

  lemma GoesAtCentre(t: Topology, h: Handler, rs: seq<Replica>, h': Handler, rs': seq<Replica>)
    requires Fit(t, h, rs) && Goes(t, h, rs, h', rs')
    ensures Tours(Places(t, h.site), |t.remotes|) && InRange(t, h') && h'.site == h.site && |rs'| == |rs|
    ensures Leads(|Remotes(t, h.site)|, Centred(t, h), Seen(Places(t, h.site), rs),
                  Centred(t, h'), Seen(Places(t, h.site), rs'))
  {
    PlacesTour(t, h.site);
    SeenAllUp(t, h.site);
    var ups := AllUp(|t.remotes| - 1);
    var k: nat :| Iterate(t, ups, Scene(h, rs), k) == Scene(h', rs');
    CentredIterate(t, ups, Scene(h, rs), k);
  }

  lemma CentreGoes(t: Topology, h: Handler, rs: seq<Replica>, c: Handler, cs: seq<Replica>)
    returns (h': Handler, rs': seq<Replica>)
    requires Fit(t, h, rs) && Tours(Places(t, h.site), |t.remotes|)
    requires Leads(|Remotes(t, h.site)|, Centred(t, h), Seen(Places(t, h.site), rs), c, cs)
    ensures Goes(t, h, rs, h', rs') && InRange(t, h') && h'.site == h.site && |rs'| == |rs|
    ensures Centred(t, h') == c && Seen(Places(t, h.site), rs') == cs
  {
    SeenAllUp(t, h.site);
    var n, ups := |Remotes(t, h.site)|, AllUp(|t.remotes| - 1);
    var k: nat :| Iterate(Star(n), AllUp(n), Scene(Centred(t, h), Seen(Places(t, h.site), rs)), k) == Scene(c, cs);
    CentredIterate(t, ups, Scene(h, rs), k);
    var sc := Iterate(t, ups, Scene(h, rs), k);
    h', rs' := sc.h, sc.rs;
  }

  /** Replica healing at any site: if any stores hold the session and those that
      do agree, an INTERIM anywhere leaves every store holding it, incremented,
      and sends the incremented number. */
  lemma InterimHealsAnywhere(t: Topology, site: nat, m: Message, rs: seq<Replica>, s: Session)
    returns (h': Handler, rs': seq<Replica>)
    requires m.recordType.Interim? && site < |t.remotes| && Fit(t, Begin(site, m), rs) && SomeHolds(rs)
    requires NulFree(s) && Expiry(s.refreshTime) > 0
    requires forall i :: 0 <= i < |rs| && rs[i].entry.Some? ==> Holds(rs[i]) && Current(rs[i]) == s
    ensures Goes(t, Begin(site, m), rs, h', rs') && SendsAfter(h', Begin(site, m), Bump(s))
    ensures |rs'| == |rs| && forall i :: 0 <= i < |rs| ==> Holds(rs'[i]) && Current(rs'[i]) == Bump(s)
  {
    PlacesTour(t, site);
    var order, n := Places(t, site), |Remotes(t, site)|;
    var w: nat :| w < |rs| && Holds(rs[w]);
    assert Holds(Seen(order, rs)[Position(order, w)]);
    InterimHeals(n, m, Seen(order, rs), s);
    var c, cs :| Healed(n, m, Seen(order, rs), s, c, cs);
    h', rs' := CentreGoes(t, Begin(site, m), rs, c, cs);
    forall i: nat | i < |rs|
      ensures Holds(rs'[i]) && Current(rs'[i]) == Bump(s)
    {
      assert cs[Position(order, i)] == rs'[i];
    }
  }
}
