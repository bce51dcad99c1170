/** The session manager: `handle`, `on_ccf_response` and `update_timer_id` as
    loops over the local and the remote stores. Each is proved to take exactly
    the store accesses of the automaton in `HandlerMachine`, so that what is
    proved there about interleaved handlers is about this code. */
module SessionManagers {
  import opened Wrappers
  import opened Uint32
  import opened Accounting
  import opened SessionKey
  import opened Replicas
  import opened HandlerMachine
  import opened Failover
  import opened SessionStores
  import opened ManagerSpec
  import opened ManagerEffects
  import opened Solo
  import opened CStrings
  import opened Undisturbed

  class SessionManager {
    const local: SessionStore
    const remotes: seq<SessionStore>
    /** The requests sent to Chronos. */
    var requests: seq<TimerRequest>

    constructor (localStore: SessionStore, remoteStores: seq<SessionStore>)
      ensures local == localStore && remotes == remoteStores && requests == []
    {
      local, remotes, requests := localStore, remoteStores, [];
    }

    ghost predicate Valid() {
      && local !in remotes
      && forall i, j :: 0 <= i < j < |remotes| ==> remotes[i] != remotes[j]
    }

    function StoreAt(i: nat): SessionStore
      requires i <= |remotes|
    {
      if i == 0 then local else remotes[i - 1]
    }

    /** All replicas of a key, the local one first. */
    ghost function View(key: string): (rs: seq<Replica>)
      reads local, remotes
      ensures |rs| == |remotes| + 1
      ensures forall i :: 0 <= i <= |remotes| ==> rs[i] == StoreAt(i).At(key)
    {
      seq(|remotes| + 1, i requires 0 <= i <= |remotes| reads local, remotes => StoreAt(i).At(key))
    }

    ghost function Ups(): (ups: seq<bool>)
      reads local, remotes
      ensures |ups| == |remotes| + 1
      ensures forall i :: 0 <= i <= |remotes| ==> ups[i] == StoreAt(i).up
    {
      seq(|remotes| + 1, i requires 0 <= i <= |remotes| reads local, remotes => StoreAt(i).up)
    }

    /** The records of all other keys are as they were. */
    twostate predicate OthersKept(key: string)
      reads local, remotes
    {
      forall k :: k != key ==> View(k) == old(View(k))
    }

    ghost function Shape(): Topology {
      Star(|remotes|)
    }

    // ----- accesses to the i-th store

    method ReadAt(ref: CallRef, i: nat) returns (r: Option<Held>)
      requires i <= |remotes|
      ensures r == Read(View(CreateKey(ref))[i], Ups()[i])
      ensures View(CreateKey(ref)) == old(View(CreateKey(ref))) && Ups() == old(Ups())
    {
      r := StoreAt(i).GetSessionData(ref);
    }

    method WriteAt(ref: CallRef, i: nat, s: Session, cas: nat, newSession: bool) returns (status: Status)
      requires Valid() && i <= |remotes|
      modifies local, remotes
      ensures Ups() == old(Ups())
      ensures var r := old(View(CreateKey(ref)))[i];
              var c := if newSession then 0 else cas;
              && status == WriteStatus(r, c, Ups()[i])
              && View(CreateKey(ref)) == old(View(CreateKey(ref)))[i := Write(r, s, c, Ups()[i])]
      ensures OthersKept(CreateKey(ref))
    {
      status := StoreAt(i).SetSessionData(ref, s, cas, newSession);
    }

    method EraseLocally(ref: CallRef, cas: nat) returns (status: Status)
      requires Valid()
      modifies local, remotes
      ensures Ups() == old(Ups())
      ensures var r := old(View(CreateKey(ref)))[0];
              && status == WriteStatus(r, cas, Ups()[0])
              && View(CreateKey(ref)) == old(View(CreateKey(ref)))[0 := Erase(r, cas, Ups()[0])]
      ensures OthersKept(CreateKey(ref))
    {
      status := local.DeleteSessionDataSafely(ref, cas);
    }

    method RemoveAt(ref: CallRef, i: nat)
      requires Valid() && i <= |remotes|
      modifies local, remotes
      ensures Ups() == old(Ups())
      ensures View(CreateKey(ref))
              == old(View(CreateKey(ref)))[i := Remove(old(View(CreateKey(ref)))[i], Ups()[i])]
      ensures OthersKept(CreateKey(ref))
    {
      var _ := StoreAt(i).DeleteSessionData(ref);
    }

    // ----- handle()

    /** From handler state `h` the automaton, undisturbed, gets to `h'` with the
        stores as they are now, and only the records of this key have changed. */
    twostate predicate Follows(ref: CallRef, h: Handler, h': Handler)
      reads local, remotes
    {
      && Ups() == old(Ups()) && OthersKept(CreateKey(ref))
      && InRange(Shape(), h')
      && Reaches(Shape(), Ups(), Scene(h, old(View(CreateKey(ref)))), Scene(h', View(CreateKey(ref))))
    }

    /** The message as it goes to the Diameter stack once the stores are done with. */
    ghost predicate Matches(outcome: Handling, h: Handler, before: seq<TimerRequest>, after: seq<TimerRequest>) {
      match outcome
      case Dropped => h.pc.Finished? && h.answered == 0 && after == before
      case Contending => AtStore(h) && after == before
      case Ready(m) =>
        if h.pc.Cancel? then m == Fill(h, h.pc.found).msg && after == before + [Delete(h.pc.found.timerId)]
        else h.pc == Sending(0) && m == h.msg && after == before
    }

    /** What the automaton holds when the session has been looked for. */
    ghost predicate FoundAs(h: Handler, m: Message, found: Option<Held>, isNew: bool) {
      && h.site == 0 && h.msg == m && h.answered == 0
      && match found
         case None => h.pc.Finished?
         case Some(held) =>
           if m.recordType.Interim? then h.pc == WriteLocal(Bump(held.session), if isNew then 0 else held.cas)
           else h.pc.EraseLocal? && h.pc.found == Bump(held.session) && h.pc.cas == held.cas && h.pc.from <= |remotes|
    }

    /** What the automaton holds when the remote stores before `i` have been asked. */
    ghost predicate SoughtAs(h: Handler, m: Message, found: Option<Held>, i: nat) {
      if found.Some? || i >= |remotes| then FoundAs(h, m, found, true)
      else h.site == 0 && h.msg == m && h.answered == 0 && h.pc == FindRemote(i)
    }

    /** The automaton, undisturbed from `start`, can have got there. */
    ghost predicate Sought(m: Message, start: Scene, failures: nat, rs: seq<Replica>, ups: seq<bool>,
                           found: Option<Held>, i: nat)
    {
      exists h: Handler ::
        SoughtAs(h, m, found, i) && h.failures == failures && Reaches(Shape(), ups, start, Scene(h, rs))
    }

    /** The automaton asks the remote store `i`. */
    lemma SoughtNext(m: Message, start: Scene, failures: nat, rs: seq<Replica>, ups: seq<bool>, i: nat)
      requires i < |remotes| == |rs| - 1 && |ups| == |rs| && Sought(m, start, failures, rs, ups, None, i)
      ensures Sought(m, start, failures, rs, ups, Read(rs[i + 1], ups[i + 1]), i + 1)
    {
      var h: Handler :| SoughtAs(h, m, None, i) && h.failures == failures && Reaches(Shape(), ups, start, Scene(h, rs));
      ReachesRead(Shape(), ups, start, h, rs, i + 1);
      var h' := Resume(Shape(), h, rs[i + 1], ups[i + 1]);
      assert SoughtAs(h', m, Read(rs[i + 1], ups[i + 1]), i + 1) && h'.failures == failures;
    }

    lemma SoughtToTheEnd(m: Message, start: Scene, failures: nat, rs: seq<Replica>, ups: seq<bool>,
                         found: Option<Held>, i: nat)
      requires Sought(m, start, failures, rs, ups, found, i) && (found.Some? || i == |remotes|)
      ensures Sought(m, start, failures, rs, ups, found, |remotes|)
    {
      var h: Handler :| SoughtAs(h, m, found, i) && h.failures == failures && Reaches(Shape(), ups, start, Scene(h, rs));
      assert SoughtAs(h, m, found, |remotes|);
    }

    /** Looks for the session at the remote stores, in order. */
    method FindRemotely(m: Message, ghost start: Scene, ghost failures: nat) returns (found: Option<Held>)
      requires Valid() && Sought(m, start, failures, View(CreateKey(m.ref)), Ups(), None, 0)
      ensures Sought(m, start, failures, View(CreateKey(m.ref)), Ups(), found, |remotes|)
    {
      found := None;
      var i := 0;
      while i < |remotes| && found.None?
        invariant i <= |remotes| && Sought(m, start, failures, View(CreateKey(m.ref)), Ups(), found, i)
      {
        SoughtNext(m, start, failures, View(CreateKey(m.ref)), Ups(), i);
        found := ReadAt(m.ref, i + 1);
        i := i + 1;
      }
      SoughtToTheEnd(m, start, failures, View(CreateKey(m.ref)), Ups(), found, i);
    }

    /** The automaton asks the local store. */
    lemma FoundFirst(m: Message, h0: Handler, rs: seq<Replica>, ups: seq<bool>) returns (h: Handler)
      requires |remotes| == |rs| - 1 && |ups| == |rs| && (m.recordType.Interim? || m.recordType.Stop?)
      requires h0.site == 0 && h0.msg == m && h0.pc.FindLocal? && h0.answered == 0
      ensures Reaches(Shape(), ups, Scene(h0, rs), Scene(h, rs)) && h.failures == h0.failures
      ensures if Read(rs[0], ups[0]).Some? then FoundAs(h, m, Read(rs[0], ups[0]), false)
              else Sought(m, Scene(h0, rs), h0.failures, rs, ups, None, 0)
    {
      ReachesItself(Shape(), ups, Scene(h0, rs));
      ReachesRead(Shape(), ups, Scene(h0, rs), h0, rs, 0);
      h := Resume(Shape(), h0, rs[0], ups[0]);
      if Read(rs[0], ups[0]).None? {
        assert SoughtAs(h, m, None, 0);
      }
    }

    /** Looks for the session locally and then remotely. */
    method Find(m: Message, ghost h0: Handler) returns (found: Option<Held>, isNew: bool, ghost h: Handler)
      requires Valid() && (m.recordType.Interim? || m.recordType.Stop?)
      requires h0.site == 0 && h0.msg == m && h0.pc.FindLocal? && h0.answered == 0
      ensures Reaches(Shape(), Ups(), Scene(h0, View(CreateKey(m.ref))), Scene(h, View(CreateKey(m.ref))))
      ensures FoundAs(h, m, found, isNew) && h.failures == h0.failures
    {
      ghost var rs, ups := View(CreateKey(m.ref)), Ups();
      h := FoundFirst(m, h0, rs, ups);
      isNew := false;
      found := ReadAt(m.ref, 0);
      if found.None? {
        isNew := true;
        found := FindRemotely(m, Scene(h0, rs), h0.failures);
        h :| SoughtAs(h, m, found, |remotes|) && h.failures == h0.failures
             && Reaches(Shape(), ups, Scene(h0, rs), Scene(h, rs));
      }
    }

    /** The write or deletion at the local store. */
    method CommitLocally(m: Message, held: Held, isNew: bool, ghost h0: Handler)
      returns (status: Status, ghost h: Handler)
      requires Valid() && (m.recordType.Interim? || m.recordType.Stop?)
      requires FoundAs(h0, m, Some(held), isNew)
      modifies local, remotes
      ensures Follows(m.ref, h0, h)
      ensures h.site == 0 && h.answered == 0
      ensures h.failures == h0.failures + if status.DATA_CONTENTION? then 1 else 0
      ensures var s := Bump(held.session);
              if status.DATA_CONTENTION? then h.pc.FindLocal? && h.msg == m
              else if m.recordType.Interim? then h == UpdateFrom(Shape(), h.(msg := m), 0, s)
              else h == RemoveFrom(Shape(), h.(msg := m), 0, s)
    {
      ghost var rs := View(CreateKey(m.ref));
      ghost var start := Scene(h0, rs);
      ReachesItself(Shape(), Ups(), start);
      ReachesNext(Shape(), Ups(), start, h0, rs, 0);
      h := Resume(Shape(), h0, rs[0], Ups()[0]);
      if m.recordType.Interim? {
        status := WriteAt(m.ref, 0, Bump(held.session), held.cas, isNew);
      } else {
        status := EraseLocally(m.ref, held.cas);
      }
    }

    /** Handles an INTERIM or a STOP, starting again at most `budget` times
        after data contention. */
    method HandleExisting(m: Message, budget: nat, ghost h0: Handler) returns (outcome: Handling, ghost h: Handler)
      requires Valid() && (m.recordType.Interim? || m.recordType.Stop?)
      requires h0.site == 0 && h0.msg == m && h0.pc.FindLocal? && h0.answered == 0
      modifies local, remotes, `requests
      ensures Follows(m.ref, h0, h)
      ensures Matches(outcome, h, old(requests), requests)
      ensures outcome.Contending? ==> h.failures > h0.failures + budget
      ensures |old(requests)| <= |requests| && requests[..|old(requests)|] == old(requests)
      ensures Handled(m, old(View(CreateKey(m.ref))), View(CreateKey(m.ref)), Ups(), outcome,
                      requests[|old(requests)|..])
    {
      outcome, h := HandleFrom(m, budget, h0);
      HandlesAsSpecified(|remotes|, m, h0, old(View(CreateKey(m.ref))), Ups(), Scene(h, View(CreateKey(m.ref))),
                         outcome, requests[|old(requests)|..]);
    }

    /** The same, access by access. */
    method HandleFrom(m: Message, budget: nat, ghost h0: Handler) returns (outcome: Handling, ghost h: Handler)
      requires Valid() && (m.recordType.Interim? || m.recordType.Stop?)
      requires h0.site == 0 && h0.msg == m && h0.pc.FindLocal? && h0.answered == 0
      modifies local, remotes, `requests
      ensures Follows(m.ref, h0, h)
      ensures Matches(outcome, h, old(requests), requests)
      ensures outcome.Contending? ==> h.failures > h0.failures + budget
      decreases budget
    {
      ghost var key := CreateKey(m.ref);
      ghost var start := Scene(h0, View(key));
      var found, isNew;
      ghost var h1;
      found, isNew, h1 := Find(m, h0);
      if found.None? {
        return Dropped, h1;
      }
      ghost var scene1 := Scene(h1, View(key));
      var status;
      ghost var h2;
      status, h2 := CommitLocally(m, found.value, isNew, h1);
      ghost var scene2 := Scene(h2, View(key));
      ReachesOn(Shape(), Ups(), start, scene1, scene2);
      if status.DATA_CONTENTION? {
        if budget == 0 {
          return Contending, h2;
        }
        outcome, h := HandleFrom(m, budget - 1, h2);
      } else if m.recordType.Interim? {
        outcome, h := UpdateRemotes(m, Bump(found.value.session), budget, h2);
      } else {
        outcome, h := RemoveRemotes(m, Bump(found.value.session), h2);
      }
      ReachesOn(Shape(), Ups(), start, scene2, Scene(h, View(key)));
    }

    /** Increments the session at every remote store, or copies it there. */
    method UpdateRemotes(m: Message, sess: Session, budget: nat, ghost h0: Handler)
      returns (outcome: Handling, ghost h: Handler)
      requires Valid() && InRange(Shape(), h0) && h0.site == 0
      requires h0 == UpdateFrom(Shape(), h0.(msg := m), 0, sess)
      modifies local, remotes
      ensures Follows(m.ref, h0, h)
      ensures Matches(outcome, h, requests, requests)
      ensures outcome.Contending? ==> h.failures > h0.failures + budget
      ensures !outcome.Dropped? && (outcome.Ready? ==> CarriesSession(outcome.msg, m, sess))
    {
      h := h0;
      ghost var key := CreateKey(m.ref);
      ghost var start := Scene(h0, View(key));
      ghost var ups := Ups();
      ReachesItself(Shape(), ups, start);
      var i, left := 0, budget;
      while i < |remotes|
        invariant i <= |remotes| && Ups() == ups && OthersKept(key)
        invariant InRange(Shape(), h) && Reaches(Shape(), ups, start, Scene(h, View(key)))
        invariant h.site == 0 && h == UpdateFrom(Shape(), h.(msg := m), i, sess)
        invariant h.failures + left == h0.failures + budget
        decreases |remotes| - i, left
      {
        var status;
        status, h := UpdateRemote(m, sess, i, start, h);
        if !status.DATA_CONTENTION? {
          i := i + 1;
        } else if left == 0 {
          return Contending, h;
        } else {
          left := left - 1;
        }
      }
      outcome := Ready(FillMessage(m, sess));
    }

    /** One round with the remote store `i`. */
    method UpdateRemote(m: Message, sess: Session, i: nat, ghost start: Scene, ghost h0: Handler)
      returns (status: Status, ghost h: Handler)
      requires Valid() && i < |remotes| && InRange(Shape(), h0) && h0.site == 0
      requires h0.pc == ReadRemote(i, sess) && h0.msg == m
      requires Reaches(Shape(), Ups(), start, Scene(h0, View(CreateKey(m.ref))))
      modifies local, remotes
      ensures Ups() == old(Ups()) && OthersKept(CreateKey(m.ref))
      ensures InRange(Shape(), h) && Reaches(Shape(), Ups(), start, Scene(h, View(CreateKey(m.ref))))
      ensures h.site == 0 && h.failures == h0.failures + if status.DATA_CONTENTION? then 1 else 0
      ensures if status.DATA_CONTENTION? then h.pc == ReadRemote(i, sess) && h.msg == m
              else h == UpdateFrom(Shape(), h.(msg := m), i + 1, sess)
    {
      var isNew, copy, cas;
      ghost var h1;
      isNew, copy, cas, h1 := ReadForUpdate(m, sess, i, start, h0);
      ghost var rs := View(CreateKey(m.ref));
      ReachesNext(Shape(), Ups(), start, h1, rs, i + 1);
      h := Resume(Shape(), h1, rs[i + 1], Ups()[i + 1]);
      status := WriteAt(m.ref, i + 1, copy, cas, isNew);
    }

    /** What is to be written to the remote store `i`: its own session incremented, or a copy. */
    method ReadForUpdate(m: Message, sess: Session, i: nat, ghost start: Scene, ghost h0: Handler)
      returns (isNew: bool, copy: Session, cas: nat, ghost h: Handler)
      requires Valid() && i < |remotes| && InRange(Shape(), h0) && h0.site == 0
      requires h0.pc == ReadRemote(i, sess) && h0.msg == m
      requires Reaches(Shape(), Ups(), start, Scene(h0, View(CreateKey(m.ref))))
      ensures InRange(Shape(), h) && Reaches(Shape(), Ups(), start, Scene(h, View(CreateKey(m.ref))))
      ensures h.site == 0 && h.msg == m && h.failures == h0.failures
      ensures h.pc == WriteRemote(i, sess, copy, if isNew then 0 else cas)
    {
      ghost var rs := View(CreateKey(m.ref));
      var theirs := ReadAt(m.ref, i + 1);
      ReachesRead(Shape(), Ups(), start, h0, rs, i + 1);
      h := Resume(Shape(), h0, rs[i + 1], Ups()[i + 1]);
      isNew, copy, cas := true, sess, 0;
      if theirs.Some? {
        isNew, copy, cas := false, Bump(theirs.value.session), theirs.value.cas;
      }
    }

    /** Deletes the session at every remote store and cancels its timer. */
    method RemoveRemotes(m: Message, sess: Session, ghost h0: Handler)
      returns (outcome: Handling, ghost h: Handler)
      requires Valid() && InRange(Shape(), h0) && h0.site == 0
      requires h0 == RemoveFrom(Shape(), h0.(msg := m), 0, sess)
      modifies local, remotes, `requests
      ensures Follows(m.ref, h0, h)
      ensures Matches(outcome, h, old(requests), requests)
      ensures outcome.Ready? && CarriesSession(outcome.msg, m, sess)
      ensures requests == old(requests) + if sess.timerId == "NO_TIMER" then [] else [Delete(sess.timerId)]
    {
      h := h0;
      ghost var key := CreateKey(m.ref);
      ghost var start := Scene(h0, View(key));
      ghost var ups := Ups();
      ReachesItself(Shape(), ups, start);
      for i := 0 to |remotes|
        invariant Ups() == ups && OthersKept(key) && requests == old(requests)
        invariant InRange(Shape(), h) && Reaches(Shape(), ups, start, Scene(h, View(key)))
        invariant h.site == 0 && h == RemoveFrom(Shape(), h.(msg := m), i, sess)
      {
        h := RemovedNext(m, sess, i, start, h, View(key), ups);
        RemoveAt(m.ref, i + 1);
      }
      if sess.timerId != NO_TIMER {
        requests := requests + [Delete(sess.timerId)];
      }
      outcome := Ready(FillMessage(m, sess));
    }

    /** The automaton removes the record of the remote store `i`. */
    lemma RemovedNext(m: Message, sess: Session, i: nat, start: Scene, h: Handler, rs: seq<Replica>, ups: seq<bool>)
      returns (h': Handler)
      requires i < |remotes| == |rs| - 1 && |ups| == |rs| && h.site == 0
      requires h == RemoveFrom(Shape(), h.(msg := m), i, sess) && Reaches(Shape(), ups, start, Scene(h, rs))
      ensures InRange(Shape(), h') && h'.site == 0 && h' == RemoveFrom(Shape(), h'.(msg := m), i + 1, sess)
      ensures Reaches(Shape(), ups, start, Scene(h', rs[i + 1 := Remove(rs[i + 1], ups[i + 1])]))
    {
      ReachesNext(Shape(), ups, start, h, rs, i + 1);
      h' := Resume(Shape(), h, rs[i + 1], ups[i + 1]);
    }

    /** `handle`: what it does to the stores, to the message and to Chronos is as
        specified, and it makes the accesses of the automaton. */
    method Handle(m: Message, budget: nat) returns (outcome: Handling, ghost h: Handler)
      requires Valid()
      modifies local, remotes, `requests
      ensures Follows(m.ref, Begin(0, m), h)
      ensures Matches(outcome, h, old(requests), requests)
      ensures outcome.Contending? ==> h.failures > budget
      ensures |old(requests)| <= |requests| && requests[..|old(requests)|] == old(requests)
      ensures Handled(m, old(View(CreateKey(m.ref))), View(CreateKey(m.ref)), Ups(), outcome,
                      requests[|old(requests)|..])
    {
      if m.recordType.Interim? || m.recordType.Stop? {
        outcome, h := HandleExisting(m, budget, Begin(0, m));
      } else {
        h := Begin(0, m);
        ReachesItself(Shape(), Ups(), Scene(h, View(CreateKey(m.ref))));
        outcome := Ready(m.(recordNumber := 1));
      }
    }

    // ----- on_ccf_response()

    /** For every answer: the Chronos request, if any, and the stores are as specified. */
    method OnCcfResponse(accepted: bool, answered: uint32, sessionId: string, rc: int, m: Message,
                         reply: Option<string>, ghost h0: Handler)
      returns (ghost h: Handler)
      requires Valid() && h0.site == 0 && h0.msg == m
      modifies local, remotes, `requests
      ensures var waiting := Respond(Shape(), h0, accepted, answered, sessionId, rc);
              && Follows(m.ref, Resumed(Shape(), waiting, reply), h)
              && requests == old(requests) + RequestOf(waiting)
      ensures h.pc.Finished?
      ensures requests == old(requests) + Asked(m, accepted, answered, rc)
      ensures Responded(accepted, answered, sessionId, rc, m, reply,
                        old(View(CreateKey(m.ref))), View(CreateKey(m.ref)), Ups())
    {
      var interval := answered;
      if interval == 0 {
        interval := if m.interimInterval == 0 then m.refreshTime else m.interimInterval;
      }
      if accepted {
        h := OnAccepted(answered, interval, sessionId, rc, m, reply, h0);
      } else {
        h := OnRejected(answered, interval, sessionId, rc, m, reply, h0);
      }
      AsksAsSpecified(Shape(), h0, accepted, answered, sessionId, rc);
      RespondsAsSpecified(|remotes|, h0, accepted, answered, sessionId, rc, reply,
                          old(View(CreateKey(m.ref))), Ups(), Scene(h, View(CreateKey(m.ref))));
    }

    method OnAccepted(answered: uint32, interval: uint32, sessionId: string, rc: int, m: Message,
                      reply: Option<string>, ghost h0: Handler)
      returns (ghost h: Handler)
      requires Valid() && h0.site == 0 && h0.msg == m && interval == Interval(m, answered)
      modifies local, remotes, `requests
      ensures var waiting := Respond(Shape(), h0, true, answered, sessionId, rc);
              && Follows(m.ref, Resumed(Shape(), waiting, reply), h)
              && requests == old(requests) + RequestOf(waiting)
      ensures h.pc.Finished?
    {
      h := Resumed(Shape(), Respond(Shape(), h0, true, answered, sessionId, rc), reply);
      if m.recordType.Interim? && !m.timerInterim && m.refreshTime > interval {
        h := RenewTimer(m, interval, reply, h);
      } else if m.recordType.Start? {
        var timerId := NO_TIMER;
        if m.refreshTime > interval {
          requests := requests + [Post(interval, m.refreshTime, m.ref)];
          if reply.Some? { timerId := reply.value; }
        }
        var sess := Session(sessionId, m.ccfs, m.recordNumber, timerId, m.refreshTime, interval);
        h := CreateEverywhere(m.ref, sess, h);
      } else {
        ReachesItself(Shape(), Ups(), Scene(h, View(CreateKey(m.ref))));
      }
    }

    method OnRejected(answered: uint32, interval: uint32, sessionId: string, rc: int, m: Message,
                      reply: Option<string>, ghost h0: Handler)
      returns (ghost h: Handler)
      requires Valid() && h0.site == 0 && h0.msg == m && interval == Interval(m, answered)
      modifies local, remotes, `requests
      ensures var waiting := Respond(Shape(), h0, false, answered, sessionId, rc);
              && Follows(m.ref, Resumed(Shape(), waiting, reply), h)
              && requests == old(requests) + RequestOf(waiting)
      ensures h.pc.Finished?
    {
      h := Resumed(Shape(), Respond(Shape(), h0, false, answered, sessionId, rc), reply);
      ReachesItself(Shape(), Ups(), Scene(h, View(CreateKey(m.ref))));
      if m.recordType.Interim? {
        if rc == UNKNOWN_SESSION_ID {
          h := PurgeEverywhere(m.ref, h);
        } else if !m.timerInterim && m.refreshTime > interval {
          h := RenewTimer(m, interval, reply, h);
        }
      }
    }

    /** `send_chronos_update`, and the new timer id goes to the stores if it changed. */
    method RenewTimer(m: Message, interval: uint32, reply: Option<string>, ghost h0: Handler)
      returns (ghost h: Handler)
      requires Valid() && h0.site == 0 && m.recordType.Interim?
      requires InRange(Shape(), h0)
      requires var timerId := if reply.Some? then reply.value else m.timerId;
               if timerId != m.timerId then h0.pc == RetimeRead(0, timerId) else h0.pc.Finished?
      modifies local, remotes, `requests
      ensures Follows(m.ref, h0, h) && h.pc.Finished?
      ensures requests == old(requests)
                          + [if m.timerId == NO_TIMER then Post(interval, m.refreshTime, m.ref)
                             else Put(m.timerId, interval, m.refreshTime, m.ref)]
    {
      var timerId := m.timerId;
      if timerId == NO_TIMER {
        requests := requests + [Post(interval, m.refreshTime, m.ref)];
      } else {
        requests := requests + [Put(timerId, interval, m.refreshTime, m.ref)];
      }
      if reply.Some? { timerId := reply.value; }
      h := h0;
      ReachesItself(Shape(), Ups(), Scene(h, View(CreateKey(m.ref))));
      if timerId != m.timerId {
        h := UpdateTimerId(m.ref, timerId, h0);
      }
    }

    method CreateEverywhere(ref: CallRef, sess: Session, ghost h0: Handler) returns (ghost h: Handler)
      requires Valid() && h0.site == 0 && h0.pc == Creating(0, sess)
      modifies local, remotes
      ensures Follows(ref, h0, h) && h.pc.Finished?
    {
      h := h0;
      ghost var key := CreateKey(ref);
      ghost var start := Scene(h0, View(key));
      ghost var ups := Ups();
      ReachesItself(Shape(), ups, start);
      for i := 0 to |remotes| + 1
        invariant Ups() == ups && OthersKept(key)
        invariant InRange(Shape(), h) && Reaches(Shape(), ups, start, Scene(h, View(key)))
        invariant h.site == 0 && if i <= |remotes| then h.pc == Creating(i, sess) else h.pc.Finished?
      {
        ReachesNext(Shape(), ups, start, h, View(key), i);
        h := Resume(Shape(), h, View(key)[i], ups[i]);
        var _ := WriteAt(ref, i, sess, 0, true);
      }
    }

    method PurgeEverywhere(ref: CallRef, ghost h0: Handler) returns (ghost h: Handler)
      requires Valid() && h0.site == 0 && h0.pc == Purging(0)
      modifies local, remotes
      ensures Follows(ref, h0, h) && h.pc.Finished?
    {
      h := h0;
      ghost var key := CreateKey(ref);
      ghost var start := Scene(h0, View(key));
      ghost var ups := Ups();
      ReachesItself(Shape(), ups, start);
      for i := 0 to |remotes| + 1
        invariant Ups() == ups && OthersKept(key)
        invariant InRange(Shape(), h) && Reaches(Shape(), ups, start, Scene(h, View(key)))
        invariant h.site == 0 && if i <= |remotes| then h.pc == Purging(i) else h.pc.Finished?
      {
        ReachesNext(Shape(), ups, start, h, View(key), i);
        h := Resume(Shape(), h, View(key)[i], ups[i]);
        RemoveAt(ref, i);
      }
    }

    /** Best effort: a store that contends keeps its old timer id. */
    method UpdateTimerId(ref: CallRef, timerId: string, ghost h0: Handler) returns (ghost h: Handler)
      requires Valid() && h0.site == 0 && h0.pc == RetimeRead(0, timerId)
      modifies local, remotes
      ensures Follows(ref, h0, h) && h.pc.Finished?
    {
      h := h0;
      ghost var key := CreateKey(ref);
      ghost var start := Scene(h0, View(key));
      ghost var ups := Ups();
      ReachesItself(Shape(), ups, start);
      for i := 0 to |remotes| + 1
        invariant Ups() == ups && OthersKept(key)
        invariant InRange(Shape(), h) && Reaches(Shape(), ups, start, Scene(h, View(key)))
        invariant h.site == 0 && if i <= |remotes| then h.pc == RetimeRead(i, timerId) else h.pc.Finished?
      {
        h := UpdateTimerIdAt(ref, timerId, i, start, h);
      }
    }

    method UpdateTimerIdAt(ref: CallRef, timerId: string, i: nat, ghost start: Scene, ghost h0: Handler)
      returns (ghost h: Handler)
      requires Valid() && i <= |remotes| && h0.site == 0 && h0.pc == RetimeRead(i, timerId)
      requires Reaches(Shape(), Ups(), start, Scene(h0, View(CreateKey(ref))))
      modifies local, remotes
      ensures Ups() == old(Ups()) && OthersKept(CreateKey(ref))
      ensures InRange(Shape(), h) && Reaches(Shape(), Ups(), start, Scene(h, View(CreateKey(ref))))
      ensures h.site == 0 && if i < |remotes| then h.pc == RetimeRead(i + 1, timerId) else h.pc.Finished?
    {
      ghost var rs := View(CreateKey(ref));
      var held := ReadAt(ref, i);
      h := RetimedNext(timerId, i, start, h0, rs, Ups());
      if held.Some? {
        var _ := WriteAt(ref, i, held.value.session.(timerId := timerId), held.value.cas, false);
      }
    }

    /** The automaton reads store `i` and, if it finds the session, writes it back. */
    lemma RetimedNext(timerId: string, i: nat, start: Scene, h: Handler, rs: seq<Replica>, ups: seq<bool>)
      returns (h': Handler)
      requires i <= |remotes| == |rs| - 1 && |ups| == |rs| && h.site == 0 && h.pc == RetimeRead(i, timerId)
      requires Reaches(Shape(), ups, start, Scene(h, rs))
      ensures InRange(Shape(), h') && h'.site == 0
      ensures if i < |remotes| then h'.pc == RetimeRead(i + 1, timerId) else h'.pc.Finished?
      ensures var held := Read(rs[i], ups[i]);
              Reaches(Shape(), ups, start,
                      Scene(h', if held.None? then rs
                                else rs[i := Write(rs[i], held.value.session.(timerId := timerId), held.value.cas, ups[i])]))
    {
      ReachesRead(Shape(), ups, start, h, rs, i);
      h' := Resume(Shape(), h, rs[i], ups[i]);
      if Read(rs[i], ups[i]).Some? {
        ReachesNext(Shape(), ups, start, h', rs, i);
        h' := Resume(Shape(), h', rs[i], ups[i]);
      }
    }

    // ----- what this means for the stores

    /** With every store reachable, whatever the number of permitted retries,
        `Handle` of an INTERIM heals the replicas: those that held the session
        have counted on, the others have it back, and the message carries the
        new number. */
    twostate lemma InterimHealsStores(m: Message, h: Handler, s: Session)
      requires m.recordType.Interim? && Follows(m.ref, Begin(0, m), h) && (AtStore(h) ==> h.failures > 0)
      requires forall i :: 0 <= i <= |remotes| ==> old(Ups())[i]
      requires NulFree(s) && Expiry(s.refreshTime) > 0 && SomeHolds(old(View(CreateKey(m.ref))))
      requires forall i :: 0 <= i <= |remotes| && old(View(CreateKey(m.ref)))[i].entry.Some? ==>
                 Holds(old(View(CreateKey(m.ref)))[i]) && Current(old(View(CreateKey(m.ref)))[i]) == s
      ensures h.pc == Sending(0) && h.msg == FillMessage(m, Bump(s))
      ensures forall i :: 0 <= i <= |remotes| ==>
                Holds(View(CreateKey(m.ref))[i]) && Current(View(CreateKey(m.ref))[i]) == Bump(s)
    {
      var n, rs := |remotes|, old(View(CreateKey(m.ref)));
      assert Ups() == AllUp(n);
      InterimHeals(n, m, rs, s);
      var h', rs' :| Healed(n, m, rs, s, h', rs');
      FailuresOnTheWay(n, Begin(0, m), rs, h, View(CreateKey(m.ref)), h', rs');
      ReachesOneEnd(Star(n), AllUp(n), Scene(Begin(0, m), rs), Scene(h, View(CreateKey(m.ref))), Scene(h', rs'));
    }
  }
}
