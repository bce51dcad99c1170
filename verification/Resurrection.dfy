/** What can bring a deleted session back when there are remote stores. An
    INTERIM that is past its own commit adds the session to every remote store
    that has lost it, and so undoes a STOP that it has overlapped with. */
module Resurrection {
  import opened Uint32
  import opened Replicas
  import opened HandlerMachine
  import opened Protocol
  import opened Provenance
  import opened CasDiscipline

  /** The step adds a storable session to the empty store of site `i`. */
  predicate Adds(t: Topology, s: System, l: Label, i: nat)
    requires Shaped(t, s) && Enabled(t, s, l)
  {
    && l.Access? && l.up && Target(t, s.handlers[l.who]) == i
    && match s.handlers[l.who].pc
       case Creating(_, created) => Expiry(created.refreshTime) > 0
       case WriteLocal(found, cas) => cas == 0 && Expiry(found.refreshTime) > 0
       case WriteRemote(_, _, theirs, cas) => cas == 0 && Expiry(theirs.refreshTime) > 0
       case _ => false
  }

  /** Whatever fails, a record appears exactly when a START creates it or an
      INTERIM adds it with CAS 0, to its own store or to a remote one. */
  lemma RecordAppearsIff(t: Topology, s: System, l: Label, i: nat)
    requires Shaped(t, s) && Enabled(t, s, l) && AllDisciplined(t, s) && AllOwned(s)
    requires i < |s.replicas| && s.replicas[i].entry.None?
    ensures Apply(t, s, l).replicas[i].entry.Some? <==> Adds(t, s, l, i)
    ensures Adds(t, s, l, i) ==>
              var h := s.handlers[l.who];
              if h.pc.Creating? then h.msg.recordType.Start? else h.msg.recordType.Interim?
  {
    if l.Access? {
      assert Tidy(s.handlers[l.who]) && Disciplined(t, s.replicas, s.handlers[l.who]);
    }
  }

  /** What is added to a remote store with CAS 0 is the handler's own session. */
  predicate Copying(h: Handler) {
    h.pc.WriteRemote? && h.pc.cas == 0 ==> h.pc.theirs == h.pc.found
  }

  /** Everything that holds in every reachable state and is used here. */
  ghost predicate Regular(t: Topology, s: System) {
    && Shaped(t, s) && AllDisciplined(t, s) && AllOwned(s)
    && forall k :: 0 <= k < |s.handlers| ==> Copying(s.handlers[k])
  }

  lemma ResumeCopying(t: Topology, h: Handler, r: Replica, up: bool)
    requires Sited(t) && InRange(t, h) && AtStore(h) && Sound(r)
    ensures Copying(Resume(t, h, r, up))
  {
  }

  lemma AnsweredCopying(t: Topology, h: Handler, rc: int, interval: int32, sessionId: string)
    requires InRange(t, h) && h.pc.Waiting?
    ensures !Answered(t, h, rc, interval, sessionId).pc.WriteRemote?
  {
  }

  lemma ApplyRegular(t: Topology, s: System, l: Label)
    requires Regular(t, s) && Enabled(t, s, l)
    ensures Regular(t, Apply(t, s, l))
  {
    ApplyDisciplined(t, s, l);
    ApplyOwned(t, s, l);
    match l {
      case Arrive(_, _) =>
      case Access(k, up) =>
        ResumeCopying(t, s.handlers[k], s.replicas[Target(t, s.handlers[k])], up);
      case Send(_) =>
      case Answer(k, rc, interval, sessionId) =>
        AnsweredCopying(t, s.handlers[k], rc, interval, sessionId);
      case Chronos(_, _, _) =>
      case CancelTimer(_) =>
      case Pop(_, _) =>
      case Lose(_) =>
    }
  }

  /** Every reachable state is regular. */
  lemma {:induction false} RunRegular(t: Topology, s: System, ls: seq<Label>)
    requires Regular(t, s) && Runs(t, s, ls)
    ensures Regular(t, After(t, s, ls))
    decreases |ls|
  {
    if ls != [] {
      ApplyRegular(t, s, ls[0]);
      RunRegular(t, Apply(t, s, ls[0]), ls[1..]);
    }
  }

  /** The session has been deleted at every site. */
  ghost predicate AllGone(s: System) {
    forall i :: 0 <= i < |s.replicas| ==> s.replicas[i].entry.None?
  }

  /** An INTERIM that carries a storable session to a store that lacks it. */
  predicate Revives(h: Handler) {
    match h.pc
    case WriteLocal(found, cas) => cas == 0 && Expiry(found.refreshTime) > 0
    case ReadRemote(_, found) => Expiry(found.refreshTime) > 0
    case WriteRemote(_, found, _, _) => Expiry(found.refreshTime) > 0
    case _ => false
  }

  ghost predicate NobodyRevives(s: System) {
    forall k :: 0 <= k < |s.handlers| ==> !Revives(s.handlers[k])
  }

  /** Stores are reachable. */
  predicate StoresUp(ls: seq<Label>) {
    forall i :: 0 <= i < |ls| && ls[i].Access? ==> ls[i].up
  }

  lemma StepGone(t: Topology, s: System, l: Label)
    requires Regular(t, s) && Enabled(t, s, l) && AllGone(s) && NobodyRevives(s)
    requires l.Access? ==> l.up && !s.handlers[l.who].msg.recordType.Start?
    ensures AllGone(Apply(t, s, l))
  {
    forall i | 0 <= i < |s.replicas|
      ensures Apply(t, s, l).replicas[i].entry.None?
    {
      RecordAppearsIff(t, s, l, i);
      if l.Access? {
        assert !Revives(s.handlers[l.who]) && Copying(s.handlers[l.who]);
      }
    }
  }

  lemma ResumeRevives(t: Topology, h: Handler, r: Replica)
    requires Sited(t) && InRange(t, h) && AtStore(h) && r.entry.None? && !Revives(h)
    ensures !Revives(Resume(t, h, r, true))
  {
  }

  lemma StepNobody(t: Topology, s: System, l: Label)
    requires Regular(t, s) && Enabled(t, s, l) && AllGone(s) && NobodyRevives(s) && (l.Access? ==> l.up)
    ensures NobodyRevives(Apply(t, s, l))
  {
    match l {
      case Arrive(_, _) =>
      case Access(k, _) =>
        assert s.replicas[Target(t, s.handlers[k])].entry.None?;
        ResumeRevives(t, s.handlers[k], s.replicas[Target(t, s.handlers[k])]);
      case Send(_) =>
      case Answer(k, rc, interval, sessionId) =>
        AnsweredRevives(t, s.handlers[k], rc, interval, sessionId);
      case Chronos(_, _, _) =>
      case CancelTimer(_) =>
      case Pop(_, _) =>
      case Lose(_) =>
    }
  }

  lemma AnsweredRevives(t: Topology, h: Handler, rc: int, interval: int32, sessionId: string)
    requires InRange(t, h) && h.pc.Waiting?
    ensures !Revives(Answered(t, h, rc, interval, sessionId))
  {
  }

  lemma {:induction false} StaysGone(t: Topology, s: System, ls: seq<Label>)
    requires Regular(t, s) && Runs(t, s, ls) && NoStartWrites(t, s, ls) && StoresUp(ls)
    requires AllGone(s) && NobodyRevives(s)
    ensures AllGone(After(t, s, ls)) && NobodyRevives(After(t, s, ls))
    decreases |ls|
  {
    if ls != [] {
      ApplyRegular(t, s, ls[0]);
      StepGone(t, s, ls[0]);
      StepNobody(t, s, ls[0]);
      StaysGone(t, Apply(t, s, ls[0]), ls[1..]);
    }
  }

  // ----- and if somebody does

  ghost predicate Revived(t: Topology, s: System, ls: seq<Label>) {
    Shaped(t, s) && Runs(t, s, ls) && NoStartWrites(t, s, ls) && StoresUp(ls) && !AllGone(After(t, s, ls))
  }

  lemma RevivedNext(t: Topology, s: System, k: nat, ls: seq<Label>)
    requires Shaped(t, s) && Enabled(t, s, Access(k, true)) && !s.handlers[k].msg.recordType.Start?
    requires Revived(t, Apply(t, s, Access(k, true)), ls)
    ensures Revived(t, s, [Access(k, true)] + ls)
  {
    assert ([Access(k, true)] + ls)[1..] == ls;
  }

  /** The handler needs at most three accesses to bring the session back. */
  lemma ReviverRevives(t: Topology, s: System, k: nat, turns: nat) returns (ls: seq<Label>)
    requires Regular(t, s) && AllGone(s) && k < |s.handlers| && Revives(s.handlers[k])
    requires turns == match s.handlers[k].pc
                      case ReadRemote(_, _) => 1
                      case WriteRemote(_, _, _, cas) => if cas == 0 then 0 else 2
                      case _ => 0
    ensures Revived(t, s, ls)
    decreases turns
  {
    var l, h := Access(k, true), s.handlers[k];
    assert Tidy(h) && Copying(h);
    var i := Target(t, h);
    ApplyRegular(t, s, l);
    var s' := Apply(t, s, l);
    if turns == 0 {
      RecordAppearsIff(t, s, l, i);
      assert Revived(t, s', []);
      RevivedNext(t, s, k, []);
      ls := [l] + [];
    } else {
      assert s.replicas[i].entry.None?;
      assert s.replicas[i := s.replicas[i]] == s.replicas;
      ls := ReviverRevives(t, s', k, turns - 1);
      RevivedNext(t, s, k, ls);
      ls := [l] + ls;
    }
  }

  /** No resurrection, exactly: once the session is gone from every site, it
      stays gone in every run with reachable stores and no START writing, if and
      only if no INTERIM is on its way to a store with it. */
  lemma NoResurrectionIff(t: Topology, s: System)
    requires Regular(t, s) && AllGone(s)
    ensures (forall ls :: !Revived(t, s, ls)) <==> NobodyRevives(s)
  {
    if NobodyRevives(s) {
      forall ls | Revived(t, s, ls)
        ensures false
      {
        StaysGone(t, s, ls);
      }
    } else {
      var k :| 0 <= k < |s.handlers| && Revives(s.handlers[k]);
      var pc := s.handlers[k].pc;
      var ls := ReviverRevives(t, s, k, if pc.ReadRemote? then 1 else if pc.WriteRemote? && pc.cas != 0 then 2 else 0);
      assert Revived(t, s, ls);
    }
  }
}
