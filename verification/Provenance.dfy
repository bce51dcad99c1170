/** What holds in every reachable state whatever fails: where stored sessions
    come from, that every send has a CCF to go to, and that every message is
    completed and freed exactly once. */
module Provenance {
  import opened Wrappers
  import opened Uint32
  import opened Accounting
  import opened CStrings
  import opened Replicas
  import opened HandlerMachine
  import opened Failover
  import opened Protocol

  /** The session, once stored, is one that an accepted START created, but for
      its record number and timer id. */
  predicate Traced(accepted: set<Origin>, s: Session) {
    OriginOf(Canon(s)) in accepted
  }

  predicate TracedHandler(accepted: set<Origin>, most: nat, h: Handler) {
    && |h.msg.ccfs| <= most
    && (h.msg.recordType.Start? || h.msg.recordType.Event? ==> h.msg.ccfs != [])
    && (h.msg.recordType.Start? ==> h.msg.interimInterval == 0 && !InHandle(h.pc))
    && match h.pc
       case WriteLocal(s, _) => Traced(accepted, s)
       case ReadRemote(_, s) => Traced(accepted, s)
       case WriteRemote(_, s, theirs, _) => Traced(accepted, s) && Traced(accepted, theirs)
       case EraseLocal(s, _, _) => Traced(accepted, s)
       case RemoveRemote(_, s) => Traced(accepted, s)
       case Cancel(s) => Traced(accepted, s)
       case Sending(w) => w < |h.msg.ccfs|
       case Waiting(w) => w < |h.msg.ccfs|
       case Arming(interval, sessionId) =>
         h.msg.recordType.Start? ==> Traced(accepted, NewSession(h.msg, sessionId, NO_TIMER, interval))
       case Creating(_, s) => Traced(accepted, s)
       case RetimeWrite(_, _, theirs, _) => Traced(accepted, theirs)
       case _ => true
  }

  predicate TracedReplica(accepted: set<Origin>, r: Replica) {
    r.entry.Some? ==> Holds(r) && NulFree(Current(r)) && OriginOf(Current(r)) in accepted
  }

  predicate Bounded(accepted: set<Origin>, most: nat) {
    forall o :: o in accepted ==> 1 <= |o.ccfs| <= most
  }

  /** `most` bounds the length of the CCF lists that arrive. */
  ghost predicate Accountable(s: System, most: nat) {
    && !s.fault
    && Bounded(s.accepted, most)
    && (forall i :: 0 <= i < |s.replicas| ==> TracedReplica(s.accepted, s.replicas[i]))
    && (forall k :: 0 <= k < |s.handlers| ==> TracedHandler(s.accepted, most, s.handlers[k]))
  }

  lemma TracedAgain(accepted: set<Origin>, s: Session, number: uint32, timerId: string)
    ensures Traced(accepted, s.(recordNumber := number, timerId := timerId)) == Traced(accepted, s)
    ensures NulFree(s) ==> Traced(accepted, s) == (OriginOf(s) in accepted)
  {
    CanonExact(s);
  }

  lemma ResumeTraced(t: Topology, accepted: set<Origin>, most: nat, h: Handler, r: Replica, up: bool)
    requires Sited(t) && InRange(t, h) && AtStore(h)
    requires TracedHandler(accepted, most, h) && TracedReplica(accepted, r) && Bounded(accepted, most)
    ensures TracedHandler(accepted, most, Resume(t, h, r, up))
  {
    if Read(r, up).Some? {
      var s := Current(r);
      TracedAgain(accepted, s, Next(s.recordNumber), s.timerId);
      if h.pc.RetimeRead? {
        TracedAgain(accepted, s, s.recordNumber, h.pc.timerId);
      }
    }
  }

  lemma EffectTraced(accepted: set<Origin>, most: nat, h: Handler, r: Replica, up: bool)
    requires AtStore(h) && TracedHandler(accepted, most, h) && TracedReplica(accepted, r)
    ensures TracedReplica(accepted, Effect(h, r, up))
  {
  }

  lemma RespondTraced(t: Topology, accepted: set<Origin>, most: nat, h: Handler,
                      ok: bool, interval: uint32, sessionId: string, rc: int)
    requires InRange(t, h) && TracedHandler(accepted, most, h)
    requires ok && h.msg.recordType.Start? ==>
               Traced(accepted, NewSession(h.msg, sessionId, NO_TIMER, Interval(h.msg, interval)))
    ensures TracedHandler(accepted, most, Respond(t, h, ok, interval, sessionId, rc))
  {
  }

  lemma AnsweredTraced(t: Topology, accepted: set<Origin>, most: nat, h: Handler,
                       rc: int, interval: int32, sessionId: string)
    requires InRange(t, h) && h.pc.Waiting? && TracedHandler(accepted, most, h) && Bounded(accepted, most)
    ensures var accepted' := accepted + AcceptedBy(h, rc, interval, sessionId);
            && Bounded(accepted', most)
            && TracedHandler(accepted', most, Answered(t, h, rc, interval, sessionId))
  {
    var accepted' := accepted + AcceptedBy(h, rc, interval, sessionId);
    MoreAccepted(accepted, accepted', most, h);
    AcceptedBounded(accepted, most, h, rc, interval, sessionId);
    if rc != UNABLE_TO_DELIVER {
      if rc == SUCCESS && h.msg.recordType.Start? {
        AcceptedTraced(accepted, h, interval, sessionId);
      }
      RespondTraced(t, accepted', most, h, rc == SUCCESS, ToUnsigned(interval), sessionId, rc);
    } else {
      RespondTraced(t, accepted', most, h, false, 0, "", rc);
    }
  }

  /** The session that an accepted START creates is the one recorded as accepted. */
  lemma AcceptedTraced(accepted: set<Origin>, h: Handler, interval: int32, sessionId: string)
    requires h.msg.recordType.Start? && h.msg.interimInterval == 0
    ensures Traced(accepted + AcceptedBy(h, SUCCESS, interval, sessionId),
                   NewSession(h.msg, sessionId, NO_TIMER, Interval(h.msg, ToUnsigned(interval))))
  {
  }

  lemma AcceptedBounded(accepted: set<Origin>, most: nat, h: Handler, rc: int, interval: int32, sessionId: string)
    requires TracedHandler(accepted, most, h) && Bounded(accepted, most)
    ensures Bounded(accepted + AcceptedBy(h, rc, interval, sessionId), most)
  {
  }

  lemma ArmedTraced(t: Topology, accepted: set<Origin>, most: nat, h: Handler, reply: Option<string>)
    requires InRange(t, h) && h.pc.Arming?
    requires TracedHandler(accepted, most, h)
    ensures TracedHandler(accepted, most, Armed(t, h, reply))
  {
    if h.msg.recordType.Start? {
      var s := NewSession(h.msg, h.pc.sessionId, NO_TIMER, h.pc.interval);
      TracedAgain(accepted, s, s.recordNumber, if reply.Some? then reply.value else NO_TIMER);
    }
  }

  lemma MoreAccepted(accepted: set<Origin>, accepted': set<Origin>, most: nat, h: Handler)
    requires accepted <= accepted' && TracedHandler(accepted, most, h)
    ensures TracedHandler(accepted', most, h)
  {
  }

  lemma AccessAccountable(t: Topology, s: System, k: nat, up: bool, most: nat)
    requires Shaped(t, s) && Enabled(t, s, Access(k, up)) && Accountable(s, most)
    ensures Accountable(Apply(t, s, Access(k, up)), most)
  {
    var h := s.handlers[k];
    var r := s.replicas[Target(t, h)];
    ResumeTraced(t, s.accepted, most, h, r, up);
    EffectTraced(s.accepted, most, h, r, up);
  }

  lemma AnswerAccountable(t: Topology, s: System, k: nat, rc: int, interval: int32, sessionId: string, most: nat)
    requires Shaped(t, s) && Enabled(t, s, Answer(k, rc, interval, sessionId)) && Accountable(s, most)
    ensures Accountable(Apply(t, s, Answer(k, rc, interval, sessionId)), most)
  {
    var accepted' := s.accepted + AcceptedBy(s.handlers[k], rc, interval, sessionId);
    AnsweredTraced(t, s.accepted, most, s.handlers[k], rc, interval, sessionId);
    forall j | 0 <= j < |s.handlers|
      ensures TracedHandler(accepted', most, s.handlers[j])
    {
      MoreAccepted(s.accepted, accepted', most, s.handlers[j]);
    }
  }

  lemma ApplyAccountable(t: Topology, s: System, l: Label, most: nat)
    requires Shaped(t, s) && Enabled(t, s, l) && Accountable(s, most)
    requires l.Arrive? ==> |l.msg.ccfs| <= most
    ensures Accountable(Apply(t, s, l), most)
  {
    match l {
      case Arrive(_, _) =>
      case Access(k, up) =>
        AccessAccountable(t, s, k, up, most);
      case Send(_) =>
      case Answer(k, rc, interval, sessionId) =>
        AnswerAccountable(t, s, k, rc, interval, sessionId, most);
      case Chronos(k, reply, _) =>
        ArmedTraced(t, s.accepted, most, s.handlers[k], reply);
      case CancelTimer(_) =>
      case Pop(_, _) =>
      case Lose(_) =>
    }
  }

  predicate Fits(ls: seq<Label>, most: nat) {
    forall i :: 0 <= i < |ls| && ls[i].Arrive? ==> |ls[i].msg.ccfs| <= most
  }

  lemma {:induction false} RunAccountable(t: Topology, s: System, ls: seq<Label>, most: nat)
    requires Shaped(t, s) && Runs(t, s, ls) && Accountable(s, most) && Fits(ls, most)
    ensures Accountable(After(t, s, ls), most)
    decreases |ls|
  {
    if ls != [] {
      ApplyShaped(t, s, ls[0]);
      ApplyAccountable(t, s, ls[0], most);
      RunAccountable(t, Apply(t, s, ls[0]), ls[1..], most);
    }
  }

  /** The longest CCF list that arrives in a run. */
  function Longest(ls: seq<Label>): (most: nat)
    ensures Fits(ls, most)
  {
    if ls == [] then 0 else
      var rest := Longest(ls[1..]);
      if ls[0].Arrive? && |ls[0].msg.ccfs| > rest then |ls[0].msg.ccfs| else rest
  }

  /** Provenance: in every reachable state every record of every replica is
      readable and has the session id, CCF list, refresh time and interim
      interval of a START that a CDF accepted, whatever the stores answered
      and whatever was lost. */
  lemma StoredSessionsHaveAnOrigin(t: Topology, s: System, ls: seq<Label>, site: nat)
    requires Initial(t, s) && Shaped(t, s) && Runs(t, s, ls) && site < |t.remotes|
    ensures var r := After(t, s, ls).replicas[site];
            r.entry.Some? ==> Holds(r) && OriginOf(Current(r)) in After(t, s, ls).accepted
  {
    RunAccountable(t, s, ls, Longest(ls));
  }

  /** Index safety: no run ever sends beyond the end of a CCF list. */
  lemma EverySendHasACcf(t: Topology, s: System, ls: seq<Label>)
    requires Initial(t, s) && Shaped(t, s) && Runs(t, s, ls)
    ensures !After(t, s, ls).fault
    ensures forall k :: 0 <= k < |After(t, s, ls).handlers| ==>
              var h := After(t, s, ls).handlers[k];
              (h.pc.Sending? || h.pc.Waiting?) ==> h.pc.which < |h.msg.ccfs|
  {
    RunAccountable(t, s, ls, Longest(ls));
    var s' := After(t, s, ls);
    forall k | 0 <= k < |s'.handlers|
      ensures var h := s'.handlers[k];
              (h.pc.Sending? || h.pc.Waiting?) ==> h.pc.which < |h.msg.ccfs|
    {
      assert TracedHandler(s'.accepted, Longest(ls), s'.handlers[k]);
    }
  }

  // ----- ownership of the message

  predicate Unanswered(pc: Pc) {
    match pc
    case Arming(_, _) | Creating(_, _) | Purging(_) | RetimeRead(_, _) | RetimeWrite(_, _, _, _) => false
    case Finished => false
    case _ => true
  }

  /** A message is answered at most once and freed exactly when it is finished;
      only an INTERIM or a STOP is ever finished without an answer. */
  predicate Owned(h: Handler) {
    if h.pc.Finished? then
      && h.freed == 1
      && (h.answered == 1 || (h.answered == 0 && (h.msg.recordType.Interim? || h.msg.recordType.Stop?)))
    else
      h.freed == 0 && h.answered == if Unanswered(h.pc) then 0 else 1
  }

  ghost predicate AllOwned(s: System) {
    forall k :: 0 <= k < |s.handlers| ==> Owned(s.handlers[k]) && Tidy(s.handlers[k])
  }

  /** The states of `handle` before the send belong to INTERIMs and STOPs. */
  predicate Tidy(h: Handler) {
    match h.pc
    case FindLocal | FindRemote(_) => h.msg.recordType.Interim? || h.msg.recordType.Stop?
    case WriteLocal(_, _) | ReadRemote(_, _) | WriteRemote(_, _, _, _) => h.msg.recordType.Interim?
    case EraseLocal(_, _, _) | RemoveRemote(_, _) | Cancel(_) => h.msg.recordType.Stop?
    case Creating(_, _) => h.msg.recordType.Start?
    case Purging(_) | RetimeRead(_, _) | RetimeWrite(_, _, _, _) => h.msg.recordType.Interim?
    case Arming(interval, _) =>
      && (h.msg.recordType.Start? || (h.msg.recordType.Interim? && !h.msg.timerInterim))
      && 0 < interval < h.msg.refreshTime
    case _ => true
  }

  lemma ResumeOwned(t: Topology, h: Handler, r: Replica, up: bool)
    requires Sited(t) && InRange(t, h) && AtStore(h) && Owned(h) && Tidy(h)
    ensures Owned(Resume(t, h, r, up)) && Tidy(Resume(t, h, r, up))
  {
  }

  lemma AnsweredOwned(t: Topology, h: Handler, rc: int, interval: int32, sessionId: string)
    requires InRange(t, h) && h.pc.Waiting? && Owned(h)
    ensures Owned(Answered(t, h, rc, interval, sessionId)) && Tidy(Answered(t, h, rc, interval, sessionId))
  {
  }

  lemma ArmedOwned(t: Topology, h: Handler, reply: Option<string>)
    requires InRange(t, h) && h.pc.Arming? && Owned(h) && Tidy(h)
    ensures Owned(Armed(t, h, reply)) && Tidy(Armed(t, h, reply))
  {
  }

  lemma AccessOwned(t: Topology, s: System, k: nat, up: bool)
    requires Shaped(t, s) && Enabled(t, s, Access(k, up)) && AllOwned(s)
    ensures AllOwned(Apply(t, s, Access(k, up)))
  {
    ResumeOwned(t, s.handlers[k], s.replicas[Target(t, s.handlers[k])], up);
  }

  lemma AnswerOwned(t: Topology, s: System, k: nat, rc: int, interval: int32, sessionId: string)
    requires Shaped(t, s) && Enabled(t, s, Answer(k, rc, interval, sessionId)) && AllOwned(s)
    ensures AllOwned(Apply(t, s, Answer(k, rc, interval, sessionId)))
  {
    AnsweredOwned(t, s.handlers[k], rc, interval, sessionId);
  }

  lemma ApplyOwned(t: Topology, s: System, l: Label)
    requires Shaped(t, s) && Enabled(t, s, l) && AllOwned(s)
    ensures AllOwned(Apply(t, s, l))
  {
    match l {
      case Arrive(_, _) =>
      case Access(k, up) =>
        AccessOwned(t, s, k, up);
      case Send(_) =>
      case Answer(k, rc, interval, sessionId) =>
        AnswerOwned(t, s, k, rc, interval, sessionId);
      case Chronos(k, reply, _) =>
        ArmedOwned(t, s.handlers[k], reply);
      case CancelTimer(_) =>
      case Pop(_, _) =>
      case Lose(_) =>
    }
  }

  lemma {:induction false} RunOwned(t: Topology, s: System, ls: seq<Label>)
    requires Shaped(t, s) && Runs(t, s, ls) && AllOwned(s)
    ensures AllOwned(After(t, s, ls))
    decreases |ls|
  {
    if ls != [] {
      ApplyShaped(t, s, ls[0]);
      ApplyOwned(t, s, ls[0]);
      RunOwned(t, Apply(t, s, ls[0]), ls[1..]);
    }
  }

  /** No step touches a finished handler, so its message is never used again. */
  lemma {:induction false} FinishedForever(t: Topology, s: System, ls: seq<Label>, k: nat)
    requires Shaped(t, s) && Runs(t, s, ls)
    requires k < |s.handlers| && s.handlers[k].pc.Finished?
    ensures k < |After(t, s, ls).handlers| && After(t, s, ls).handlers[k] == s.handlers[k]
    decreases |ls|
  {
    if ls != [] {
      ApplyShaped(t, s, ls[0]);
      FinishedForever(t, Apply(t, s, ls[0]), ls[1..], k);
    }
  }

  /** Exactly-once completion, in every run and for every handler: the message
      is freed exactly once, when the handler finishes; by then it has reached
      `on_ccf_response` once, or not at all if it was dropped as unknown. */
  lemma CompletedOnce(t: Topology, s: System, ls: seq<Label>, k: nat)
    requires Initial(t, s) && Shaped(t, s) && Runs(t, s, ls) && k < |After(t, s, ls).handlers|
    ensures var h := After(t, s, ls).handlers[k];
            && h.answered <= 1
            && h.freed == (if h.pc.Finished? then 1 else 0)
            && (h.pc.Finished? && h.answered == 0 ==> h.msg.recordType.Interim? || h.msg.recordType.Stop?)
  {
    RunOwned(t, s, ls);
    var h := After(t, s, ls).handlers[k];
    assert Owned(h);
  }
}
