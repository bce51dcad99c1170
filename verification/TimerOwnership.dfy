/** Who owns the Chronos timer. Messages of one session are handled one at a
    time, each at any site, with all stores and Chronos reachable; between
    messages the timer may run out by itself. A POST or PUT ends the timer that
    it names and starts the one whose id it returns. */
module TimerOwnership {
  import opened Wrappers
  import opened Uint32
  import opened Accounting
  import opened CStrings
  import opened Replicas
  import opened HandlerMachine
  import opened Failover
  import opened Solo
  import opened Undisturbed
  import opened Viewpoint

  /** The replicas, and the timers of this session that Chronos still runs. */
  datatype World = World(rs: seq<Replica>, live: set<string>)

  /** A message, the site that handles it, the answer it finally gets, and the
      timer id that Chronos returns if it is asked; or a timer that has run out. */
  datatype Turn =
    | Serve(site: nat, msg: Message, rc: int, interval: uint32, sessionId: string, reply: string)
    | RunOut(id: string)

  /** A STOP cancels its timer before the message goes to the Diameter stack. */
  function Dispatched(h: Handler): Handler {
    if h.pc.Cancel? then Fill(h, h.pc.found) else h
  }

  function Uncancelled(h: Handler, live: set<string>): set<string> {
    if h.pc.Cancel? then live - {h.pc.found.timerId} else live
  }

  /** `on_ccf_response` up to its first store access, Chronos having replied. */
  function Asked(t: Topology, h: Handler, turn: Turn): Handler
    requires turn.Serve? && h.site < |t.remotes|
  {
    Respond(t, h, turn.rc == SUCCESS, turn.interval, turn.sessionId, turn.rc)
  }

  function Replied(t: Topology, h: Handler, turn: Turn): Handler
    requires turn.Serve? && h.site < |t.remotes|
  {
    var asked := Asked(t, h, turn);
    if asked.pc.Arming? then Armed(t, asked, Some(turn.reply)) else asked
  }

  function Rearmed(t: Topology, h: Handler, turn: Turn, live: set<string>): set<string>
    requires turn.Serve? && h.site < |t.remotes|
  {
    if Asked(t, h, turn).pc.Arming? then live - {OldTimer(h.msg)} + {turn.reply} else live
  }

  /** The stores end up like this. */
  ghost predicate Halts(t: Topology, h: Handler, rs: seq<Replica>, rs': seq<Replica>)
    requires |t.remotes| > 0
  {
    exists h': Handler :: h'.pc.Finished? && Goes(t, h, rs, h', rs')
  }

  /** The rest of the turn once `handle` is done with the stores. */
  ghost predicate Finally(t: Topology, h: Handler, rs: seq<Replica>, live: set<string>, turn: Turn, w': World)
    requires turn.Serve? && h.site < |t.remotes|
  {
    if h.pc.Finished? then w' == World(rs, live)
    else
      && w'.live == Rearmed(t, Dispatched(h), turn, Uncancelled(h, live))
      && Halts(t, Replied(t, Dispatched(h), turn), rs, w'.rs)
  }

  ghost predicate Served(t: Topology, w: World, turn: Turn, w': World)
    requires turn.Serve? && turn.site < |t.remotes|
  {
    exists h: Handler, rs ::
      && Goes(t, Begin(turn.site, turn.msg), w.rs, h, rs) && !AtStore(h) && h.site == turn.site
      && Finally(t, h, rs, w.live, turn, w')
  }

  ghost predicate Hosts(t: Topology, w: World) {
    Complete(t) && Sited(t) && |w.rs| == |t.remotes| > 0
  }

  /** Chronos returns proper timer ids. */
  predicate Possible(t: Topology, turn: Turn) {
    turn.Serve? ==> turn.site < |t.remotes| && '\0' !in turn.reply && turn.reply != NO_TIMER
  }

  ghost predicate Next(t: Topology, w: World, turn: Turn, w': World) {
    && Possible(t, turn)
    && match turn
       case Serve(_, _, _, _, _, _) => Served(t, w, turn, w')
       case RunOut(id) => w' == World(w.rs, w.live - {id})
  }

  /** No store has a record and no timer runs. */
  ghost predicate Gone(w: World) {
    w.live == {} && forall i :: 0 <= i < |w.rs| ==> w.rs[i].entry.None?
  }

  predicate HasTimer(r: Replica, id: string) {
    && Holds(r) && Sound(r)
    && Expiry(Current(r).refreshTime) > 0 && NulFree(Current(r)) && Current(r).timerId == id
  }

  /** Every store names the same timer, and no other timer runs. */
  ghost predicate OwnedBy(w: World, id: string) {
    && (forall i :: 0 <= i < |w.rs| ==> HasTimer(w.rs[i], id))
    && (forall x :: x in w.live ==> x == id && id != NO_TIMER)
  }

  ghost predicate Good(w: World) {
    Gone(w) || exists id :: OwnedBy(w, id)
  }

  /** The START is accepted and asks Chronos for a timer. */
  predicate Opens(turn: Turn)
    requires turn.Serve?
  {
    turn.rc == SUCCESS && turn.msg.refreshTime > Interval(turn.msg, turn.interval)
  }

  /** The exact guard of timer ownership. A START that gets a timer must find the
      session gone and have a refresh time that keeps its record stored, or else
      get the timer that the stores name already; and an INTERIM answered 5002
      must find no timer running. */
  ghost predicate Orderly(w: World, turn: Turn) {
    turn.Serve? ==>
      match turn.msg.recordType
      case Start => Opens(turn) ==> if Gone(w) then Expiry(turn.msg.refreshTime) > 0 else OwnedBy(w, turn.reply)
      case Interim => turn.rc == UNKNOWN_SESSION_ID ==> w.live == {}
      case Stop => true
      case Event => true
  }

  // ----- the handling of a message has one end

  lemma OneEnd(n: nat, h: Handler, rs: seq<Replica>, h1: Handler, rs1: seq<Replica>, h2: Handler, rs2: seq<Replica>)
    requires Leads(n, h, rs, h1, rs1) && Leads(n, h, rs, h2, rs2) && !AtStore(h1) && !AtStore(h2)
    ensures h1 == h2 && rs1 == rs2
  {
    ReachesOneEnd(Star(n), AllUp(n), Scene(h, rs), Scene(h1, rs1), Scene(h2, rs2));
  }

  /** The star is a topology like any other. */
  lemma StarGoes(n: nat, h: Handler, rs: seq<Replica>, h': Handler, rs': seq<Replica>)
    ensures Goes(Star(n), h, rs, h', rs') == Leads(n, h, rs, h', rs')
  {
  }

  lemma OneEnding(n: nat, h: Handler, rs: seq<Replica>, rs1: seq<Replica>, rs2: seq<Replica>)
    requires Halts(Star(n), h, rs, rs1) && Ends(n, h, rs, rs2)
    ensures rs1 == rs2
  {
    var h1: Handler :| h1.pc.Finished? && Goes(Star(n), h, rs, h1, rs1);
    StarGoes(n, h, rs, h1, rs1);
    var h2: Handler :| h2.pc.Finished? && Leads(n, h, rs, h2, rs2);
    OneEnd(n, h, rs, h1, rs1, h2, rs2);
  }

  lemma EndsAtOnce(n: nat, h: Handler, rs: seq<Replica>)
    requires h.pc.Finished?
    ensures Ends(n, h, rs, rs)
  {
    LeadsNowhere(n, h, rs);
  }

  lemma ServedBy(n: nat, w: World, turn: Turn, w': World, h': Handler, rs': seq<Replica>)
    requires turn.Serve? && turn.site == 0 && Served(Star(n), w, turn, w')
    requires Leads(n, Begin(0, turn.msg), w.rs, h', rs') && !AtStore(h')
    ensures h'.site == 0 && Finally(Star(n), h', rs', w.live, turn, w')
  {
    var h0 := Begin(0, turn.msg);
    var h: Handler, rs :| Goes(Star(n), h0, w.rs, h, rs) && !AtStore(h) && h.site == 0
                          && Finally(Star(n), h, rs, w.live, turn, w');
    StarGoes(n, h0, w.rs, h, rs);
    OneEnd(n, h0, w.rs, h, rs, h', rs');
  }

  // ----- what a store shows after each kind of write

  lemma BumpedHasTimer(r: Replica, s: Session, id: string)
    requires HasTimer(r, id)
    ensures HasTimer(Updater(s)(r), id)
  {
    CanonExact(Bump(Current(r)));
  }

  lemma RetimedHasTimer(r: Replica, before: string, id: string)
    requires HasTimer(r, before) && '\0' !in id
    ensures HasTimer(Retimer(id)(r), id)
  {
    CanonExact(Current(r).(timerId := id));
  }

  lemma CreatedHasTimer(r: Replica, s: Session)
    requires r.entry.None? && '\0' !in s.timerId
    ensures if Expiry(s.refreshTime) > 0 then HasTimer(Creator(s)(r), s.timerId) else Creator(s)(r).entry.None?
  {
    CStrOfNulFree(s.timerId);
  }

  // ----- one turn at the centre of a star

  /** A turn at site 0 of a star. */
  ghost predicate Central(n: nat, w: World, turn: Turn, w': World) {
    turn.Serve? && turn.site == 0 && |w.rs| == n + 1 && Possible(Star(n), turn) && Served(Star(n), w, turn, w')
  }

  /** START for a session that is gone: it leaks its timer exactly when its
      refresh time does not keep the record stored. */
  lemma OpeningTurn(n: nat, w: World, turn: Turn, w': World)
    requires Central(n, w, turn, w') && turn.msg.recordType.Start? && Gone(w)
    ensures Good(w') <==> Orderly(w, turn)
    ensures Opens(turn) ==> w'.live == {turn.reply}
  {
    var h0 := Begin(0, turn.msg);
    LeadsNowhere(n, h0, w.rs);
    ServedBy(n, w, turn, w', h0, w.rs);
    var h1 := Replied(Star(n), h0, turn);
    if turn.rc == SUCCESS {
      var id := if Opens(turn) then turn.reply else NO_TIMER;
      var s := NewSession(h0.msg, turn.sessionId, id, Interval(h0.msg, turn.interval));
      CreatedEverywhere(n, h1, w, w'.rs, s);
      if Expiry(s.refreshTime) > 0 {
        assert OwnedBy(w', id);
      } else {
        assert forall x :: OwnedBy(w', x) ==> HasTimer(w'.rs[0], x);
      }
    } else {
      EndsAtOnce(n, h1, w.rs);
      OneEnding(n, h1, w.rs, w'.rs, w.rs);
    }
  }

  lemma CreatedEverywhere(n: nat, h: Handler, w: World, rs: seq<Replica>, s: Session)
    requires Gone(w) && |w.rs| == n + 1 && h.site == 0 && h.pc == Creating(0, s) && Halts(Star(n), h, w.rs, rs)
    requires '\0' !in s.timerId
    ensures |rs| == n + 1
    ensures forall i :: 0 <= i <= n ==>
              if Expiry(s.refreshTime) > 0 then HasTimer(rs[i], s.timerId) else rs[i].entry.None?
  {
    CreateSweep(n, h, w.rs, s, 0);
    OneEnding(n, h, w.rs, rs, Swept(w.rs, Creator(s), 0));
    forall i | 0 <= i <= n
      ensures if Expiry(s.refreshTime) > 0 then HasTimer(rs[i], s.timerId) else rs[i].entry.None?
    {
      CreatedHasTimer(w.rs[i], s);
    }
  }

  /** START for a session that exists: the stores stay as they are, and its
      timer leaks unless Chronos returns the one they name. */
  lemma DuplicateStartTurn(n: nat, w: World, turn: Turn, w': World, id: string)
    requires Central(n, w, turn, w') && turn.msg.recordType.Start? && OwnedBy(w, id)
    ensures w'.rs == w.rs
    ensures w'.live == if Opens(turn) then w.live + {turn.reply} else w.live
  {
    var h0 := Begin(0, turn.msg);
    LeadsNowhere(n, h0, w.rs);
    ServedBy(n, w, turn, w', h0, w.rs);
    var h1 := Replied(Star(n), h0, turn);
    if turn.rc == SUCCESS {
      var s := h1.pc.created;
      CreateSweep(n, h1, w.rs, s, 0);
      OneEnding(n, h1, w.rs, w'.rs, Swept(w.rs, Creator(s), 0));
      forall i | 0 <= i <= n
        ensures Creator(s)(w.rs[i]) == w.rs[i]
      {
        assert HasTimer(w.rs[i], id);
      }
      assert Swept(w.rs, Creator(s), 0) == w.rs;
    } else {
      EndsAtOnce(n, h1, w.rs);
      OneEnding(n, h1, w.rs, w'.rs, w.rs);
    }
    assert NO_TIMER !in w.live;
  }

  lemma DuplicateStartLeaksIff(n: nat, w: World, turn: Turn, w': World, id: string)
    requires Central(n, w, turn, w') && turn.msg.recordType.Start? && OwnedBy(w, id)
    ensures Good(w') <==> Orderly(w, turn)
  {
    DuplicateStartTurn(n, w, turn, w', id);
    assert HasTimer(w.rs[0], id) && HasTimer(w'.rs[0], id);
    if Opens(turn) && turn.reply != id {
      assert turn.reply in w'.live;
      assert forall x :: OwnedBy(w', x) ==> HasTimer(w'.rs[0], x);
    } else {
      assert OwnedBy(w', id);
    }
  }

  /** The stores and the message once `handle` is done with an INTERIM. */
  lemma AfterInterim(n: nat, w: World, m: Message, id: string) returns (rs: seq<Replica>, h': Handler)
    requires m.recordType.Interim? && |w.rs| == n + 1 && OwnedBy(w, id)
    ensures |rs| == n + 1 && OwnedBy(World(rs, w.live), id)
    ensures Leads(n, Begin(0, m), w.rs, h', rs) && h'.pc == Sending(0)
    ensures h'.msg.recordType.Interim? && h'.msg.timerId == id
  {
    assert HasTimer(w.rs[0], id);
    forall i | 0 <= i <= n ensures Clean(w.rs[i]) { assert HasTimer(w.rs[i], id); }
    InterimEffect(n, m, w.rs);
    var s := Working(w.rs);
    rs := Swept(w.rs, Updater(s), 0);
    h' :| SendsAfter(h', Begin(0, m), s) && Leads(n, Begin(0, m), w.rs, h', rs);
    forall i | 0 <= i <= n
      ensures HasTimer(rs[i], id)
    {
      BumpedHasTimer(w.rs[i], s, id);
    }
  }

  /** INTERIM: it leaks the running timer exactly when it is answered 5002. */
  lemma InterimTurn(n: nat, w: World, turn: Turn, w': World, id: string)
    requires Central(n, w, turn, w') && turn.msg.recordType.Interim? && OwnedBy(w, id)
    ensures Good(w') <==> Orderly(w, turn)
    ensures turn.rc == UNKNOWN_SESSION_ID ==> w'.live == w.live && forall i :: 0 <= i < |w'.rs| ==> w'.rs[i].entry.None?
  {
    var rs, h' := AfterInterim(n, w, turn.msg, id);
    ServedBy(n, w, turn, w', h', rs);
    var h1 := Replied(Star(n), h', turn);
    if turn.rc == UNKNOWN_SESSION_ID {
      PurgeSweep(n, h1, rs, 0);
      OneEnding(n, h1, rs, w'.rs, Swept(rs, Purger(), 0));
      assert forall x :: OwnedBy(w', x) ==> HasTimer(w'.rs[0], x);
    } else {
      InterimRetimes(n, h', World(rs, w.live), turn, w', id);
    }
  }

  lemma InterimRetimes(n: nat, h: Handler, w: World, turn: Turn, w': World, id: string)
    requires turn.Serve? && |w.rs| == n + 1 && OwnedBy(w, id) && Possible(Star(n), turn)
    requires h.site == 0 && h.pc == Sending(0) && h.msg.recordType.Interim? && h.msg.timerId == id
    requires turn.rc != UNKNOWN_SESSION_ID && Finally(Star(n), h, w.rs, w.live, turn, w')
    ensures Good(w')
  {
    var h1 := Replied(Star(n), h, turn);
    var id' := if Asked(Star(n), h, turn).pc.Arming? then turn.reply else id;
    if id' != id {
      RetimeSweep(n, h1, w.rs, id', 0);
      OneEnding(n, h1, w.rs, w'.rs, Swept(w.rs, Retimer(id'), 0));
      forall i | 0 <= i <= n
        ensures HasTimer(w'.rs[i], id')
      {
        RetimedHasTimer(w.rs[i], id, id');
      }
    } else {
      EndsAtOnce(n, h1, w.rs);
      OneEnding(n, h1, w.rs, w'.rs, w.rs);
    }
    assert OwnedBy(w', id');
  }

  /** A STOP cancels exactly the live timer and leaves nothing behind. */
  lemma StopTurn(n: nat, w: World, turn: Turn, w': World, id: string)
    requires Central(n, w, turn, w') && turn.msg.recordType.Stop? && OwnedBy(w, id)
    ensures Gone(w')
  {
    var h0 := Begin(0, turn.msg);
    assert HasTimer(w.rs[0], id);
    StopEffect(n, turn.msg, w.rs);
    var s := Bump(Current(w.rs[0]));
    var rs := Swept(w.rs, Purger(), 0);
    var h': Handler :| Cleared(h', turn.msg, s) && Leads(n, h0, w.rs, h', rs);
    ServedBy(n, w, turn, w', h', rs);
    var h1 := Replied(Star(n), Dispatched(h'), turn);
    EndsAtOnce(n, h1, rs);
    OneEnding(n, h1, rs, w'.rs, rs);
  }

  lemma LateTurn(n: nat, w: World, turn: Turn, w': World)
    requires Central(n, w, turn, w') && (turn.msg.recordType.Interim? || turn.msg.recordType.Stop?) && Gone(w)
    ensures w' == w
  {
    var h0 := Begin(0, turn.msg);
    UnknownIsDropped(n, turn.msg, w.rs);
    var h': Handler :| h'.pc.Finished? && h'.answered == 0 && Leads(n, h0, w.rs, h', w.rs);
    ServedBy(n, w, turn, w', h', w.rs);
  }

  lemma EventTurn(n: nat, w: World, turn: Turn, w': World)
    requires Central(n, w, turn, w') && turn.msg.recordType.Event?
    ensures w' == w
  {
    var h0 := Begin(0, turn.msg);
    LeadsNowhere(n, h0, w.rs);
    ServedBy(n, w, turn, w', h0, w.rs);
    var h1 := Replied(Star(n), h0, turn);
    EndsAtOnce(n, h1, w.rs);
    OneEnding(n, h1, w.rs, w'.rs, w.rs);
  }

  lemma CentralTurn(n: nat, w: World, turn: Turn, w': World)
    requires Central(n, w, turn, w') && Good(w)
    ensures Good(w') <==> Orderly(w, turn)
    ensures turn.msg.recordType.Stop? ==> Gone(w')
  {
    if turn.msg.recordType.Event? {
      EventTurn(n, w, turn, w');
    } else if Gone(w) {
      if turn.msg.recordType.Start? {
        OpeningTurn(n, w, turn, w');
      } else {
        LateTurn(n, w, turn, w');
      }
    } else {
      var id :| OwnedBy(w, id);
      match turn.msg.recordType {
        case Start =>
          DuplicateStartLeaksIff(n, w, turn, w', id);
        case Interim =>
          InterimTurn(n, w, turn, w', id);
        case Stop =>
          StopTurn(n, w, turn, w', id);
      }
    }
  }

  // ----- one turn at any site

  /** The world as this site sees it. */
  ghost function View(t: Topology, site: nat, w: World): (v: World)
    requires Hosts(t, w) && site < |t.remotes|
    ensures |v.rs| == |Remotes(t, site)| + 1
  {
    PlacesTour(t, site);
    World(Seen(Places(t, site), w.rs), w.live)
  }

  /** All sites see the same of what matters here. */
  lemma SeenAlike(t: Topology, site: nat, w: World, id: string)
    requires Hosts(t, w) && site < |t.remotes|
    ensures Gone(View(t, site, w)) == Gone(w) && OwnedBy(View(t, site, w), id) == OwnedBy(w, id)
  {
    PlacesTour(t, site);
    var order := Places(t, site);
    assert forall i: nat :: i < |w.rs| ==> w.rs[i] == Seen(order, w.rs)[Position(order, i)];
  }

  lemma GoodAlike(t: Topology, site: nat, w: World, turn: Turn)
    requires Hosts(t, w) && site < |t.remotes| && turn.Serve?
    ensures Good(View(t, site, w)) == Good(w)
    ensures Orderly(View(t, site, w), turn.(site := 0)) == Orderly(w, turn)
  {
    forall id {
      SeenAlike(t, site, w, id);
    }
    SeenAlike(t, site, w, turn.reply);
  }

  lemma RespondAtCentre(t: Topology, h: Handler, turn: Turn, live: set<string>)
    requires turn.Serve? && InRange(t, h) && !AtStore(h) && Tours(Places(t, h.site), |t.remotes|)
    ensures var d, n := Dispatched(h), |Remotes(t, h.site)|;
            && InRange(t, Replied(t, d, turn)) && Replied(t, d, turn).site == h.site
            && Centred(t, Replied(t, d, turn)) == Replied(Star(n), Dispatched(Centred(t, h)), turn)
            && Rearmed(t, d, turn, Uncancelled(h, live))
               == Rearmed(Star(n), Dispatched(Centred(t, h)), turn, Uncancelled(Centred(t, h), live))
  {
  }

  /** The rest of a turn, seen from the site. */
  lemma CentralEnd(t: Topology, h: Handler, rs: seq<Replica>, live: set<string>, turn: Turn, w': World)
    requires turn.Serve? && Fit(t, h, rs) && !AtStore(h) && Tours(Places(t, h.site), |rs|)
    requires Finally(t, h, rs, live, turn, w')
    ensures |w'.rs| == |rs|
    ensures Finally(Star(|Remotes(t, h.site)|), Centred(t, h), Seen(Places(t, h.site), rs), live, turn,
                    World(Seen(Places(t, h.site), w'.rs), w'.live))
  {
    if !h.pc.Finished? {
      var order, n := Places(t, h.site), |Remotes(t, h.site)|;
      RespondAtCentre(t, h, turn, live);
      var h1 := Replied(t, Dispatched(h), turn);
      var h': Handler :| h'.pc.Finished? && Goes(t, h1, rs, h', w'.rs);
      GoesAtCentre(t, h1, rs, h', w'.rs);
      StarGoes(n, Centred(t, h1), Seen(order, rs), Centred(t, h'), Seen(order, w'.rs));
      assert Halts(Star(n), Centred(t, h1), Seen(order, rs), Seen(order, w'.rs));
    }
  }

  lemma CentralServe(t: Topology, w: World, turn: Turn, w': World)
    requires Hosts(t, w) && turn.Serve? && Next(t, w, turn, w')
    ensures Hosts(t, w')
    ensures Central(|Remotes(t, turn.site)|, View(t, turn.site, w), turn.(site := 0), View(t, turn.site, w'))
  {
    var site, order, n := turn.site, Places(t, turn.site), |Remotes(t, turn.site)|;
    var h0 := Begin(site, turn.msg);
    var h: Handler, rs :| Goes(t, h0, w.rs, h, rs) && !AtStore(h) && h.site == site
                          && Finally(t, h, rs, w.live, turn, w');
    GoesAtCentre(t, h0, w.rs, h, rs);
    assert Centred(t, h0) == Begin(0, turn.msg);
    StarGoes(n, Begin(0, turn.msg), Seen(order, w.rs), Centred(t, h), Seen(order, rs));
    CentralEnd(t, h, rs, w.live, turn, w');
    assert Finally(Star(n), Centred(t, h), Seen(order, rs), w.live, turn.(site := 0), View(t, site, w'));
  }

  /** One turn of any message at any site: the owner is kept exactly under the guard. */
  lemma OwnerKeptIff(t: Topology, w: World, turn: Turn, w': World)
    requires Hosts(t, w) && Good(w) && Next(t, w, turn, w')
    ensures Hosts(t, w')
    ensures Good(w') <==> Orderly(w, turn)
    ensures turn.Serve? && turn.msg.recordType.Stop? ==> Gone(w')
  {
    match turn {
      case Serve(site, _, _, _, _, _) =>
        CentralServe(t, w, turn, w');
        GoodAlike(t, site, w, turn);
        GoodAlike(t, site, w', turn);
        SeenAlike(t, site, w', "");
        CentralTurn(|Remotes(t, site)|, View(t, site, w), turn.(site := 0), View(t, site, w'));
      case RunOut(_) =>
        if !Gone(w) {
          var id :| OwnedBy(w, id);
          assert OwnedBy(w', id);
        }
    }
  }

  // ----- whole histories

  ghost predicate History(t: Topology, ws: seq<World>, turns: seq<Turn>) {
    && |ws| == |turns| + 1 && Hosts(t, ws[0])
    && forall i :: 0 <= i < |turns| ==> Next(t, ws[i], turns[i], ws[i + 1])
  }

  /** Timer ownership, over any number of lives of the session and whichever
      sites its messages come to: at every moment all stores name the one timer
      that may be running, or there is neither a record nor a timer, exactly if
      every turn is orderly; and then nothing at all is left after a STOP. */
  lemma TimerHasOneOwner(t: Topology, ws: seq<World>, turns: seq<Turn>)
    requires History(t, ws, turns) && Good(ws[0])
    ensures (forall i :: 0 <= i <= |turns| ==> Good(ws[i]))
            <==> (forall i :: 0 <= i < |turns| ==> Orderly(ws[i], turns[i]))
    ensures forall i :: 0 <= i < |turns| && Good(ws[i]) && turns[i].Serve? && turns[i].msg.recordType.Stop? ==>
              Gone(ws[i + 1])
  {
    forall i | 0 <= i < |turns|
      ensures Good(ws[i]) ==> (Good(ws[i + 1]) <==> Orderly(ws[i], turns[i]))
      ensures Good(ws[i]) && turns[i].Serve? && turns[i].msg.recordType.Stop? ==> Gone(ws[i + 1])
    {
      StillHosts(t, ws, turns, i);
      if Good(ws[i]) {
        OwnerKeptIff(t, ws[i], turns[i], ws[i + 1]);
      }
    }
    if forall i :: 0 <= i < |turns| ==> Orderly(ws[i], turns[i]) {
      for k := 0 to |turns|
        invariant forall i :: 0 <= i <= k ==> Good(ws[i])
      {
        assert Orderly(ws[k], turns[k]);
      }
    } else {
      var k :| 0 <= k < |turns| && !Orderly(ws[k], turns[k]);
      assert !Good(ws[k]) || !Good(ws[k + 1]);
    }
  }

  lemma {:induction false} StillHosts(t: Topology, ws: seq<World>, turns: seq<Turn>, i: nat)
    requires History(t, ws, turns) && i <= |turns|
    ensures Hosts(t, ws[i])
  {
    if i > 0 {
      StillHosts(t, ws, turns, i - 1);
      assert Next(t, ws[i - 1], turns[i - 1], ws[i]);
      if turns[i - 1].Serve? {
        CentralServe(t, ws[i - 1], turns[i - 1], ws[i]);
      }
    }
  }

  // ----- the three leaks

  /** A 5002 answer removes every record but leaves the timer running. */
  lemma UnknownSessionLeavesTimer(t: Topology, w: World, turn: Turn, w': World, id: string)
    requires Hosts(t, w) && OwnedBy(w, id) && Next(t, w, turn, w')
    requires turn.Serve? && turn.msg.recordType.Interim? && turn.rc == UNKNOWN_SESSION_ID
    ensures w'.live == w.live
    ensures forall i :: 0 <= i < |w'.rs| ==> w'.rs[i].entry.None?
  {
    var order := Places(t, turn.site);
    CentralServe(t, w, turn, w');
    SeenAlike(t, turn.site, w, id);
    InterimTurn(|Remotes(t, turn.site)|, View(t, turn.site, w), turn.(site := 0), View(t, turn.site, w'), id);
    PlacesTour(t, turn.site);
    assert forall i: nat :: i < |w'.rs| ==> w'.rs[i] == Seen(order, w'.rs)[Position(order, i)];
  }

  /** A second START for a session that exists arms a timer that no store names. */
  lemma DuplicateStartLeaksTimer(t: Topology, w: World, turn: Turn, w': World, id: string)
    requires Hosts(t, w) && OwnedBy(w, id) && Next(t, w, turn, w')
    requires turn.Serve? && turn.msg.recordType.Start? && Opens(turn) && turn.reply != id
    ensures w'.rs == w.rs && w'.live == w.live + {turn.reply}
  {
    var order := Places(t, turn.site);
    CentralServe(t, w, turn, w');
    SeenAlike(t, turn.site, w, id);
    DuplicateStartTurn(|Remotes(t, turn.site)|, View(t, turn.site, w), turn.(site := 0), View(t, turn.site, w'), id);
    PlacesTour(t, turn.site);
    forall i: nat | i < |w.rs|
      ensures w'.rs[i] == w.rs[i]
    {
      assert Seen(order, w'.rs)[Position(order, i)] == Seen(order, w.rs)[Position(order, i)];
    }
  }

  /** A START whose doubled refresh time is no positive 32-bit expiry arms a
      timer and stores nothing, so that no STOP can ever cancel that timer. */
  lemma UnstorableStartLeaksTimer(t: Topology, w: World, turn: Turn, w': World)
    requires Hosts(t, w) && Gone(w) && Next(t, w, turn, w')
    requires turn.Serve? && turn.msg.recordType.Start? && Opens(turn) && Expiry(turn.msg.refreshTime) <= 0
    ensures w'.live == {turn.reply} && !Good(w')
  {
    CentralServe(t, w, turn, w');
    SeenAlike(t, turn.site, w, "");
    OpeningTurn(|Remotes(t, turn.site)|, View(t, turn.site, w), turn.(site := 0), View(t, turn.site, w'));
    OwnerKeptIff(t, w, turn, w');
  }

  // ----- every turn comes to an end

  lemma Concludes(n: nat, h: Handler, rs: seq<Replica>, live: set<string>, turn: Turn) returns (w': World)
    requires turn.Serve? && h.site == 0 && |rs| == n + 1 && !AtStore(h)
    ensures |w'.rs| == n + 1 && Finally(Star(n), h, rs, live, turn, w')
  {
    if h.pc.Finished? {
      return World(rs, live);
    }
    var h1 := Replied(Star(n), Dispatched(h), turn);
    var rs' := rs;
    match h1.pc {
      case Creating(_, s) =>
        CreateSweep(n, h1, rs, s, 0);
        rs' := Swept(rs, Creator(s), 0);
      case RetimeRead(_, id) =>
        RetimeSweep(n, h1, rs, id, 0);
        rs' := Swept(rs, Retimer(id), 0);
      case Purging(_) =>
        PurgeSweep(n, h1, rs, 0);
        rs' := Swept(rs, Purger(), 0);
      case Finished =>
        EndsAtOnce(n, h1, rs);
    }
    var h': Handler :| h'.pc.Finished? && Leads(n, h1, rs, h', rs');
    StarGoes(n, h1, rs, h', rs');
    w' := World(rs', Rearmed(Star(n), Dispatched(h), turn, Uncancelled(h, live)));
  }

  /** What `handle` comes to at the centre of a star. */
  lemma HandleEnds(n: nat, w: World, m: Message) returns (h: Handler, rs: seq<Replica>)
    requires Good(w) && |w.rs| == n + 1
    ensures Leads(n, Begin(0, m), w.rs, h, rs) && !AtStore(h)
  {
    if m.recordType.Start? || m.recordType.Event? {
      h, rs := Begin(0, m), w.rs;
      LeadsNowhere(n, h, rs);
    } else if Gone(w) {
      rs := w.rs;
      UnknownIsDropped(n, m, rs);
      h :| h.pc.Finished? && h.answered == 0 && Leads(n, Begin(0, m), rs, h, rs);
    } else {
      var id :| OwnedBy(w, id);
      if m.recordType.Interim? {
        rs, h := AfterInterim(n, w, m, id);
      } else {
        assert HasTimer(w.rs[0], id);
        StopEffect(n, m, w.rs);
        rs := Swept(w.rs, Purger(), 0);
        h :| Cleared(h, m, Bump(Current(w.rs[0]))) && Leads(n, Begin(0, m), w.rs, h, rs);
      }
    }
  }

  /** No turn is impossible: every message, at any site, is handled to the end. */
  lemma TurnEnds(t: Topology, w: World, turn: Turn) returns (w': World)
    requires Hosts(t, w) && Good(w) && Possible(t, turn)
    ensures Next(t, w, turn, w')
  {
    if turn.RunOut? {
      return World(w.rs, w.live - {turn.id});
    }
    var site, order, n := turn.site, Places(t, turn.site), |Remotes(t, turn.site)|;
    PlacesTour(t, site);
    GoodAlike(t, site, w, turn);
    var c, cs := HandleEnds(n, View(t, site, w), turn.msg);
    var h0 := Begin(site, turn.msg);
    assert Centred(t, h0) == Begin(0, turn.msg);
    var h, rs := CentreGoes(t, h0, w.rs, c, cs);
    if h.pc.Finished? {
      return World(rs, w.live);
    }
    var v := Concludes(n, c, cs, w.live, turn);
    RespondAtCentre(t, h, turn, w.live);
    var h1 := Replied(t, Dispatched(h), turn);
    var c': Handler :| c'.pc.Finished? && Goes(Star(n), Centred(t, h1), cs, c', v.rs);
    StarGoes(n, Centred(t, h1), cs, c', v.rs);
    var h', rs' := CentreGoes(t, h1, rs, c', v.rs);
    w' := World(rs', Rearmed(t, Dispatched(h), turn, Uncancelled(h, w.live)));
    assert Finally(t, h, rs, w.live, turn, w');
  }
}
