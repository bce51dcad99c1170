/** What a CAS value is worth: as long as the version a handler read is still
    the current one, the session it is about to write is that of the replica
    with exactly the handler's own change applied. This holds in every
    reachable state, whatever fails. */
module CasDiscipline {
  import opened Wrappers
  import opened Uint32
  import opened Accounting
  import opened Replicas
  import opened HandlerMachine
  import opened Protocol

  predicate CurrentVersion(r: Replica, cas: nat) {
    r.entry.Some? && r.entry.value.version == cas
  }

  predicate HeldBumped(r: Replica, s: Session, cas: nat) {
    && 1 <= cas <= r.clock
    && (CurrentVersion(r, cas) ==> Holds(r) && s == Bump(Current(r)))
  }

  predicate HeldRetimed(r: Replica, s: Session, cas: nat, id: string) {
    && 1 <= cas <= r.clock
    && (CurrentVersion(r, cas) ==> Holds(r) && s == Current(r).(timerId := id))
  }

  predicate Disciplined(t: Topology, rs: seq<Replica>, h: Handler)
    requires Sited(t) && |rs| == |t.remotes| && InRange(t, h)
  {
    match h.pc
    case WriteLocal(s, cas) => cas == 0 || HeldBumped(rs[h.site], s, cas)
    case WriteRemote(k, _, theirs, cas) => cas == 0 || HeldBumped(rs[Remotes(t, h.site)[k]], theirs, cas)
    case EraseLocal(s, cas, from) => HeldBumped(rs[from], s, cas)
    case RetimeWrite(k, id, theirs, cas) => HeldRetimed(rs[Target(t, h)], theirs, cas, id)
    case _ => true
  }

  /** A replica changes only by taking a version never used before, or by losing its entry. */
  predicate Evolves(r: Replica, r': Replica) {
    && r.clock <= r'.clock
    && (r'.entry.Some? ==> r'.entry == r.entry || r'.entry.value.version > r.clock)
  }

  ghost predicate AllDisciplined(t: Topology, s: System)
    requires Shaped(t, s)
  {
    forall k :: 0 <= k < |s.handlers| ==> Disciplined(t, s.replicas, s.handlers[k])
  }

  lemma OthersKeepDiscipline(t: Topology, rs: seq<Replica>, rs': seq<Replica>, h: Handler)
    requires Sited(t) && |rs| == |rs'| == |t.remotes| && InRange(t, h)
    requires forall i :: 0 <= i < |rs| ==> Evolves(rs[i], rs'[i])
    requires Disciplined(t, rs, h)
    ensures Disciplined(t, rs', h)
  {
  }

  lemma EffectEvolves(h: Handler, r: Replica, up: bool)
    requires AtStore(h)
    ensures Evolves(r, Effect(h, r, up))
  {
  }

  lemma ResumeDisciplined(t: Topology, rs: seq<Replica>, rs': seq<Replica>, h: Handler, up: bool)
    requires Sited(t) && |rs| == |rs'| == |t.remotes| && InRange(t, h) && AtStore(h)
    requires Sound(rs[Target(t, h)])
    requires rs' == rs[Target(t, h) := Effect(h, rs[Target(t, h)], up)]
    ensures InRange(t, Resume(t, h, rs[Target(t, h)], up))
    ensures Disciplined(t, rs', Resume(t, h, rs[Target(t, h)], up))
  {
    ResumeInRange(t, h, rs[Target(t, h)], up);
  }

  lemma AnsweredDisciplined(t: Topology, rs: seq<Replica>, h: Handler, rc: int, interval: int32, sessionId: string)
    requires Sited(t) && |rs| == |t.remotes| && InRange(t, h) && h.pc.Waiting?
    ensures InRange(t, Answered(t, h, rc, interval, sessionId))
    ensures Disciplined(t, rs, Answered(t, h, rc, interval, sessionId))
  {
  }

  lemma ArmedDisciplined(t: Topology, rs: seq<Replica>, h: Handler, reply: Option<string>)
    requires Sited(t) && |rs| == |t.remotes| && InRange(t, h) && h.pc.Arming?
    ensures InRange(t, Armed(t, h, reply))
    ensures Disciplined(t, rs, Armed(t, h, reply))
  {
  }

  lemma ApplyDisciplined(t: Topology, s: System, l: Label)
    requires Shaped(t, s) && Enabled(t, s, l) && AllDisciplined(t, s)
    ensures Shaped(t, Apply(t, s, l)) && AllDisciplined(t, Apply(t, s, l))
  {
    ApplyShaped(t, s, l);
    var s' := Apply(t, s, l);
    match l {
      case Arrive(_, _) =>
      case Access(k, up) =>
        var h := s.handlers[k];
        EffectEvolves(h, s.replicas[Target(t, h)], up);
        ResumeDisciplined(t, s.replicas, s'.replicas, h, up);
        forall j | 0 <= j < |s.handlers|
          ensures Disciplined(t, s'.replicas, s.handlers[j])
        {
          OthersKeepDiscipline(t, s.replicas, s'.replicas, s.handlers[j]);
        }
      case Send(_) =>
      case Answer(k, rc, interval, sessionId) =>
        AnsweredDisciplined(t, s.replicas, s.handlers[k], rc, interval, sessionId);
      case Chronos(k, reply, _) =>
        ArmedDisciplined(t, s.replicas, s.handlers[k], reply);
      case CancelTimer(_) =>
      case Pop(_, _) =>
      case Lose(_) =>
        forall j | 0 <= j < |s.handlers|
          ensures Disciplined(t, s'.replicas, s.handlers[j])
        {
          OthersKeepDiscipline(t, s.replicas, s'.replicas, s.handlers[j]);
        }
    }
  }

  /** CAS discipline in every run. */
  lemma {:induction false} RunDisciplined(t: Topology, s: System, ls: seq<Label>)
    requires Shaped(t, s) && Runs(t, s, ls) && AllDisciplined(t, s)
    ensures AllDisciplined(t, After(t, s, ls))
    decreases |ls|
  {
    if ls != [] {
      ApplyDisciplined(t, s, ls[0]);
      RunDisciplined(t, Apply(t, s, ls[0]), ls[1..]);
    }
  }
}
