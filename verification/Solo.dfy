/** One handler running undisturbed: the automaton iterated on its store
    accesses, at the site whose remote stores are all the others. */
module Solo {
  import opened Replicas
  import opened HandlerMachine

  /** The handler and all the replicas, the local one first. */
  datatype Scene = Scene(h: Handler, rs: seq<Replica>)

  /** Site 0 with `n` remote stores, in this order. */
  function Star(n: nat): (t: Topology)
    ensures |t.remotes| == n + 1
    ensures |t.remotes[0]| == n && forall k :: 0 <= k < n ==> t.remotes[0][k] == k + 1
    ensures forall i :: 0 < i <= n ==> t.remotes[i] == []
    ensures Sited(t)
    ensures |Places(t, 0)| == n + 1 && forall k :: 0 <= k <= n ==> Places(t, 0)[k] == k
  {
    Topology([seq(n, i => i + 1)] + seq(n, _ => []))
  }

  /** `ups` says which stores are reachable. */
  predicate Staged(t: Topology, ups: seq<bool>, sc: Scene) {
    Sited(t) && |sc.rs| == |ups| == |t.remotes| && InRange(t, sc.h)
  }

  /** One store access; nothing if the handler waits for something else. */
  function Advance(t: Topology, ups: seq<bool>, sc: Scene): (r: Scene)
    ensures Staged(t, ups, sc) ==> Staged(t, ups, r)
  {
    if Staged(t, ups, sc) && AtStore(sc.h) then
      var i := Target(t, sc.h);
      ResumeInRange(t, sc.h, sc.rs[i], ups[i]);
      Scene(Resume(t, sc.h, sc.rs[i], ups[i]), sc.rs[i := Effect(sc.h, sc.rs[i], ups[i])])
    else sc
  }

  function Stepper(t: Topology, ups: seq<bool>): Scene -> Scene {
    sc => Advance(t, ups, sc)
  }

  function Repeat<S>(f: S -> S, s: S, n: nat): S {
    if n == 0 then s else f(Repeat(f, s, n - 1))
  }

  function Iterate(t: Topology, ups: seq<bool>, sc: Scene, n: nat): Scene {
    Repeat(Stepper(t, ups), sc, n)
  }

  lemma {:induction false} RepeatTwice<S>(f: S -> S, s: S, m: nat, n: nat)
    ensures Repeat(f, Repeat(f, s, m), n) == Repeat(f, s, m + n)
  {
    if n > 0 {
      RepeatTwice(f, s, m, n - 1);
    }
  }

  lemma {:induction false} RepeatFixed<S>(f: S -> S, s: S, n: nat)
    requires f(s) == s
    ensures Repeat(f, s, n) == s
  {
    if n > 0 {
      RepeatFixed(f, s, n - 1);
    }
  }

  lemma {:induction false} IterateStaged(t: Topology, ups: seq<bool>, sc: Scene, n: nat)
    requires Staged(t, ups, sc)
    ensures Staged(t, ups, Iterate(t, ups, sc, n))
  {
    if n > 0 {
      IterateStaged(t, ups, sc, n - 1);
    }
  }

  /** An undisturbed handler is done with the stores in at most one way. */
  lemma {:induction false} DoneOnce(t: Topology, ups: seq<bool>, sc: Scene, m: nat, n: nat)
    requires !AtStore(Iterate(t, ups, sc, m).h) && !AtStore(Iterate(t, ups, sc, n).h)
    ensures Iterate(t, ups, sc, m) == Iterate(t, ups, sc, n)
    decreases m
  {
    var f := Stepper(t, ups);
    if m <= n {
      RepeatTwice(f, sc, m, n - m);
      RepeatFixed(f, Repeat(f, sc, m), n - m);
    } else {
      DoneOnce(t, ups, sc, n, m);
    }
  }

  /** The undisturbed handler gets from one scene to the other. */
  ghost predicate Reaches(t: Topology, ups: seq<bool>, sc: Scene, sc': Scene) {
    exists n: nat :: Iterate(t, ups, sc, n) == sc'
  }

  lemma ReachesItself(t: Topology, ups: seq<bool>, sc: Scene)
    ensures Reaches(t, ups, sc, sc)
  {
    assert Iterate(t, ups, sc, 0) == sc;
  }

  lemma ReachesOn(t: Topology, ups: seq<bool>, a: Scene, b: Scene, c: Scene)
    requires Reaches(t, ups, a, b) && Reaches(t, ups, b, c)
    ensures Reaches(t, ups, a, c)
  {
    var m: nat :| Iterate(t, ups, a, m) == b;
    var n: nat :| Iterate(t, ups, b, n) == c;
    RepeatTwice(Stepper(t, ups), a, m, n);
    assert Iterate(t, ups, a, m + n) == c;
  }

  /** One more access of the `i`-th store. */
  lemma ReachesNext(t: Topology, ups: seq<bool>, a: Scene, h: Handler, rs: seq<Replica>, i: nat)
    requires Reaches(t, ups, a, Scene(h, rs)) && Staged(t, ups, Scene(h, rs)) && AtStore(h) && i == Target(t, h)
    ensures Reaches(t, ups, a, Scene(Resume(t, h, rs[i], ups[i]), rs[i := Effect(h, rs[i], ups[i])]))
    ensures InRange(t, Resume(t, h, rs[i], ups[i]))
  {
    var n: nat :| Iterate(t, ups, a, n) == Scene(h, rs);
    assert Iterate(t, ups, a, n + 1) == Advance(t, ups, Scene(h, rs));
  }

  /** One more access of the `i`-th store, which only reads. */
  lemma ReachesRead(t: Topology, ups: seq<bool>, a: Scene, h: Handler, rs: seq<Replica>, i: nat)
    requires Reaches(t, ups, a, Scene(h, rs)) && Staged(t, ups, Scene(h, rs)) && AtStore(h) && i == Target(t, h)
    requires h.pc.FindLocal? || h.pc.FindRemote? || h.pc.ReadRemote? || h.pc.RetimeRead?
    ensures Reaches(t, ups, a, Scene(Resume(t, h, rs[i], ups[i]), rs))
    ensures InRange(t, Resume(t, h, rs[i], ups[i]))
  {
    ReachesNext(t, ups, a, h, rs, i);
    assert rs[i := rs[i]] == rs;
  }

  /** Being done with the stores, the handler got there in the only possible way. */
  lemma ReachesOneEnd(t: Topology, ups: seq<bool>, sc: Scene, a: Scene, b: Scene)
    requires Reaches(t, ups, sc, a) && Reaches(t, ups, sc, b) && !AtStore(a.h) && !AtStore(b.h)
    ensures a == b
  {
    var m: nat :| Iterate(t, ups, sc, m) == a;
    var n: nat :| Iterate(t, ups, sc, n) == b;
    DoneOnce(t, ups, sc, m, n);
  }
}
