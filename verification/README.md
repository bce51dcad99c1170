# Ralf: replicated accounting sessions

Ralf is a Diameter Charging Trigger Function. It turns HTTP billing requests
into accounting requests (ACRs), keeps one session record per call in a local
and several remote compare-and-swap stores, and has Chronos timers call it back
with further INTERIMs. This project models that behaviour in Dafny and proves
what it guarantees for every interleaving of handlers, every store failure and
every answer.

## How the project is organised

| files | content |
|---|---|
| `Wrappers`, `Uint32`, `Accounting`, `CStrings`, `Json` | values: 32-bit arithmetic, messages, sessions, C strings, JSON trees |
| `SessionKey`, `SessionCodec`, `Replicas`, `SessionStores` | the session store: keys, JSON (de)serializer, CAS contract, the store class |
| `BillingTask`, `TimerCallback` | the HTTP front end and the callback body |
| `Failover` | `PeerMessageSender` and `RalfTransaction` |
| `HandlerMachine` | the handling of one message as an automaton; one state per store access, Chronos call, send or answer |
| `ManagerSpec`, `ManagerEffects` | what `handle` and `on_ccf_response` do to stores, message and Chronos, field by field and without the automaton; and that the automaton does it, whichever stores are reachable |
| `SessionManagers` | the session manager as a class with loops over store objects, proved to follow that automaton access by access and to do what `ManagerSpec` says |
| `Protocol` | any number of sites and handlers on the replicas of one key; the environment picks every step |
| `Provenance`, `CasDiscipline`, `Convergence`, `RetryTermination`, `TimerLoop`, `Numbering`, `SingleSite`, `CrossSite`, `Resurrection` | what holds in every run of that system, and what two sites can do that one cannot |
| `RecordLifetime` | runs of that system in time, with records that expire |
| `Solo`, `Undisturbed`, `Viewpoint`, `Livelock`, `TimerOwnership` | what one undisturbed handler does at site 0 of a star, why it does the same at every site, and what follows for whole session lives |

A single definition of the handling code, `HandlerMachine`, is used throughout:
the imperative `SessionManager` methods are proved against it, the system steps
it in arbitrary interleavings, and `Solo` iterates it for one handler alone.
The system works on one key. A store operation touches the record of one key
only, which the contracts of `SessionStores.SessionStore` state.

## Assumptions about the environment

- Store: a write succeeds only with the current version, version 0 meaning "add
  if absent"; anything else is data contention. Every success takes a fresh
  version. A write whose signed 32-bit expiry is not positive leaves the key
  absent. A plain removal is unconditional. An unreachable store changes nothing.
- A JSON document that is not an object counts as a record that does not
  deserialize.
- Chronos: POST and PUT start a timer that pops while its repeat-for time lasts;
  DELETE ends it. Whether a request succeeds, and which id it returns, is
  arbitrary except where a row below says otherwise. When a PUT returns another
  id than the one it named, `TimerOwnership` takes the timer it named to be
  ended, as an update in place; `Protocol` does not rely on that and lets the
  old timer run on, so the bound on ACRs holds either way.
- The call id in the callback URL is the one that was escaped into it.

## Where a natural claim fails

The code does not have these properties; each is refuted, and the exact
condition under which it holds is proved beside it.

- A STOP deletes from the local store with the CAS value of whichever store it
  found the session at, and contends with itself for ever unless that happens to
  be the local store's own; so it never ends for a session that only a remote
  store holds (`Livelock.StopEndsIff`, `Livelock.ReadableStopEndsIff`).
- An INTERIM that finds its session while some store has a record that does not
  deserialize contends with itself for ever (`Livelock.InterimEndsIff`).
- A timer can lose its owner in three ways: a 5002 answer removes the records and
  leaves the timer running (`TimerOwnership.UnknownSessionLeavesTimer`); a second
  START arms a timer that no store names
  (`TimerOwnership.DuplicateStartLeaksTimer`); and a START whose doubled refresh
  time is not a positive 32-bit expiry arms a timer and stores nothing
  (`TimerOwnership.UnstorableStartLeaksTimer`). These are all the ways
  (`TimerOwnership.OwnerKeptIff`).
- An access that fails because the store is unreachable does not stop the ACR, so
  an INTERIM sends an uncommitted number and a STOP leaves its record behind
  (`SingleSite.UnreachableSendsUncommitted`); a sent number is committed exactly
  if the store was reachable when the handler passed it
  (`SingleSite.SentIsCommittedIff`).
- Two sites can send the same number (`CrossSite.SitesSendOneNumberTwice`), and
  do so exactly if their stores have counted equally far
  (`CrossSite.SitesRepeatIff`).
- With remote stores a session can be stopped twice, once at each site
  (`CrossSite.SitesSendTwoStops`), though never twice in one life at one store
  (`CrossSite.StopsOfOneStore`).
- With remote stores a STOP can be undone by an INTERIM that it overlaps with
  (`CrossSite.InterimUndoesStop`); a session deleted everywhere stays deleted
  exactly if no INTERIM is on its way to a store with it
  (`Resurrection.NoResurrectionIff`).
- An INTERIM may bring a longer refresh time, which governs the timer but is not
  stored, so that the record expires before the timer pops
  (`RecordLifetime.LongerRefreshOutlivesRecord`); whatever is answered this is
  avoided exactly if the refresh time in force is at most the record's time to
  live (`RecordLifetime.FirstPopInTimeIff`).
- Keys are not injective across call ids, for which the exact condition is
  `SessionKey.KeySeparation` with the codes that the enumerations name and
  `SessionKey.CallIdSeparation` with any.
- Codes outside the enumerations, which the front end accepts, collide even for
  one call id, exactly if digits can be shifted between role and function
  (`SessionKey.OneCallSeparation`); so an unnamed role can reach the record of a
  named call (`SessionKey.UnnamedCodesCollide`).

## Model

| member | source | states |
|---|---|---|
| `Convergence.Converges` | src/session_manager.cpp:74-128 | in every run of INTERIMs, timer updates and duplicate STARTs over any number of sites, with reachable stores and no deletion, each replica's number is its start plus the INTERIM handlers that have committed on it, modulo 2^32 |
| `Convergence.ConvergesAtRest` | src/session_manager.cpp:92-128 | when all handlers have finished, every replica has counted every INTERIM exactly once |
| `CasDiscipline.RunDisciplined` | src/session_store.cpp:81-107 | in every run, while the version a handler read is current, what it is about to write is the stored session with only its own change |
| `Provenance.StoredSessionsHaveAnOrigin` | src/session_manager.cpp:351-381 | whatever fails or is lost, every stored record is readable and has the CCFs and refresh time of a START request, and the session id and interim interval of the answer that accepted it, the refresh time standing in for a missing interval |
| `Provenance.EverySendHasACcf` | src/peer_message_sender.cpp:59-61 | in every run of parsed requests no send is ever beyond the end of the CCF list |
| `Provenance.CompletedOnce` | src/session_manager.cpp:442-443 | every message is freed exactly once, when its handler finishes, having reached `on_ccf_response` once, or never if it was dropped |
| `Provenance.FinishedForever` | src/session_manager.cpp:65-71 | no step touches a finished handler, so a freed message is not used again |
| `Numbering.NumbersIncrease` | src/session_manager.cpp:74-90 | in every run, whatever fails, the numbers committed to one store during one life of the record, including the one that opens a life there by adding a session found remotely, strictly increase before wrap-around, two of them coincide only if a multiple of 2^32 lies between them, and nothing follows a STOP |
| `Numbering.SentNumbers` | src/session_manager.cpp:172-201 | with any number of remote sites and whatever fails, every ACR of the handler that committed a number carries that number |
| `Numbering.PassCommitsIff` | src/session_manager.cpp:80-92 | a handler that goes on past its local store has committed its number there exactly if the store was reachable and the number was read there or opens a new life there, which it does not for a STOP that found its session elsewhere |
| `CrossSite.SitesSendOneNumberTwice` | src/session_manager.cpp:80-128 | from an empty two-site system every storable START, followed by an INTERIM at each site, has a run in which both INTERIMs send the number 2 |
| `CrossSite.CommittedNumber` | src/session_manager.cpp:74-90 | in every benign run of any number of sites a committing INTERIM takes one more than the start of its store plus the INTERIMs committed there |
| `CrossSite.SitesRepeatIff` | src/session_manager.cpp:74-90 | two commits at any sites take the same number exactly if the two stores have counted equally far modulo 2^32 |
| `CrossSite.SitesSendTwoStops` | src/session_manager.cpp:130-160 | from an empty two-site system every storable START has a run in which a STOP at each site sends |
| `CrossSite.StopsOfOneStore` | src/session_manager.cpp:130-143 | at one store, whatever the topology and whatever fails, no number follows a STOP in the same life, so that two STOPs end different lives |
| `CrossSite.InterimUndoesStop` | src/session_manager.cpp:98-119 | from an empty two-site system every storable START has a run in which a STOP is handled to its end and a store holds the session afterwards |
| `Resurrection.RecordAppearsIff` | src/session_manager.cpp:98-119 | whatever fails, a record appears exactly when a START creates it or an INTERIM adds it with CAS 0 to its own or a remote store |
| `Resurrection.NoResurrectionIff` | src/session_manager.cpp:80-119 | a session deleted at every site stays deleted in every run with reachable stores and no START writing exactly if no INTERIM is on its way to a store with it |
| `SingleSite.NumbersAreConsecutive` | src/session_manager.cpp:133-143 | without remote sites the numbers of a life are 2, 3, ... after the START's 1, a STOP being one more than the last INTERIM and the last of its life |
| `SingleSite.SentIsCommittedIff` | src/session_manager.cpp:86-201 | in every run, whatever fails, an INTERIM or STOP that sends passes the store once, and its number is committed, once, exactly if the store was reachable then |
| `SingleSite.SentNumbersAreCommitted` | src/session_manager.cpp:172-201 | if the store was reachable whenever this INTERIM or STOP asked it, it commits exactly one number before it sends, the one its ACRs carry, and none if it is dropped |
| `SingleSite.OneStopPerLife` | src/session_manager.cpp:130-143 | two STOPs that both send, having reached the store, end different lives of the session |
| `SingleSite.OnlyStartOpens` | src/session_manager.cpp:363-369 | only the answer to a START makes the record appear, with number 1 |
| `SingleSite.LosersAreDropped` | src/session_manager.cpp:130-143 | once the record is gone, in every interleaving without a START writing, an INTERIM or STOP that has not committed sends nothing, recreates nothing and is dropped after at most two more accesses |
| `SingleSite.LateHandlerIsDropped` | src/session_manager.cpp:139-143 | the shortest such run: two accesses after the deletion the handler is dropped |
| `SingleSite.UnreachableSendsUncommitted` | src/session_manager.cpp:86-143 | with the store unreachable an INTERIM still goes on to send its uncommitted number, and a STOP its ACR with the record left in place |
| `RetryTermination.HandlingEnds` | src/session_manager.cpp:86-128 | in every run a handler's writes fail by contention at most as often as others write successfully, and `handle` accesses the stores at most 3n+2 times plus n+2 per such write |
| `TimerLoop.TimersAreArmedByRequests` | src/session_manager.cpp:285-335 | every Chronos request has 0 < interval < repeat-for and comes from a START or an INTERIM that is not timer-driven |
| `TimerLoop.FinitelyManyAcrs` | src/session_manager.cpp:415-438 | the ACRs of any run are bounded by its network requests times a constant, however timers are renewed and pop |
| `TimerCallback.CallbackContinuesSession` | src/session_manager.cpp:172-183 | a popped timer's body comes back as an INTERIM for the same key that takes CCFs, session id and refresh time from the stores, and never arms a timer |
| `Undisturbed.InterimEffect` | src/session_manager.cpp:48-128 | the whole effect of an undisturbed INTERIM on all replicas, whichever of them hold the session |
| `Undisturbed.InterimHeals` | src/session_manager.cpp:98-119 | if some replicas hold the session and agree, one INTERIM leaves all of them holding it incremented, and the ACR carries that number |
| `Undisturbed.StopEffect` | src/session_manager.cpp:130-170 | a STOP whose local store holds the session empties every replica and carries one more than the local number |
| `Undisturbed.UnknownIsDropped` | src/session_manager.cpp:48-71 | a message for a session no store holds is dropped and changes nothing |
| `Undisturbed.CreateSweep` | src/session_manager.cpp:363-381 | an accepted START adds the session to every store that has none and to no other |
| `Undisturbed.RetimeSweep` | src/session_manager.cpp:448-478 | a new timer id reaches every store that holds the session and changes nothing else |
| `Viewpoint.CentredIterate` | src/session_manager.cpp:48-128 | with any stores reachable, a handler at any site of a complete topology makes the accesses of the one at the centre of a star, the stores numbered in the order it asks them |
| `Viewpoint.InterimHealsAnywhere` | src/session_manager.cpp:98-119 | replica healing for an INTERIM handled at any site |
| `Livelock.StopEndsIff` | src/session_manager.cpp:130-143 | an undisturbed STOP gets past the stores exactly when no store holds the session or the version it was found under is the local store's |
| `Livelock.ReadableStopEndsIff` | src/session_manager.cpp:130-143 | if every record is readable, exactly when the local store holds the session or no store does |
| `Livelock.InterimEndsIff` | src/session_store.cpp:67-75 | an undisturbed INTERIM gets past the stores exactly when no store holds the session or every record is readable |
| `Livelock.SameAnywhere` | src/session_manager.cpp:48-62 | these conditions decide it at every site, the stores taken in the order that site asks them |
| `TimerOwnership.TimerHasOneOwner` | src/session_manager.cpp:295-357 | over any number of session lives handled one message at a time, each at any site, all stores name the only timer that may be running, or there is neither record nor timer, exactly if every turn meets the guard; and nothing is left after a STOP |
| `TimerOwnership.OwnerKeptIff` | src/session_manager.cpp:285-438 | one message of any kind at any site keeps that exactly if it is no accepted START that arms a timer over an existing session or without a storable record, and no INTERIM answered 5002 while a timer runs |
| `TimerOwnership.TurnEnds` | src/session_manager.cpp:480-512 | from such a state every message is handled to its end, at any site and whatever is answered |
| `TimerOwnership.UnknownSessionLeavesTimer` | src/session_manager.cpp:395-413 | a 5002 answer empties every store and cancels no timer |
| `TimerOwnership.DuplicateStartLeaksTimer` | src/session_manager.cpp:327-369 | a second START that arms a timer leaves the stores as they are and adds a timer that none of them names |
| `TimerOwnership.UnstorableStartLeaksTimer` | src/session_manager.cpp:327-369 | a START that arms a timer with a refresh time that cannot be stored leaves that timer and no record |
| `RecordLifetime.EveryPopFindsTheRecord` | src/session_store.cpp:91-103 | in every timed run over any number of sites, pops, network INTERIMs that restart the timer and duplicate STARTs included, if pops are due within the interval of the last pop or renewal and the handling delays together with the interval stay below the record's time to live, no record ever expires and no INTERIM is dropped |
| `RecordLifetime.StartLasts` | src/session_store.cpp:97-103 | with a refresh time below 2^30 and the interval and the total handling delay each below it, the records that a START creates meet that condition |
| `RecordLifetime.FirstPopInTimeIff` | src/session_manager.cpp:177-183 | for every INTERIM and stored session, the timer pops within the record's life whatever is answered exactly if the refresh time in force plus the lag since the write is at most the time to live; a refresh time not above the stored one, below 2^30, suffices |
| `RecordLifetime.LongerRefreshOutlivesRecord` | src/session_manager.cpp:177-183 | beyond that condition an answer with an interval just below the refresh time arms a timer that pops after the record has expired |
| `Failover.Deliver` | src/peer_message_sender.cpp:45-128 | for every sequence of outcomes the CCFs contacted are a prefix of the list, once each, with the session id, record number and record type of the message; all but the last were undelivered; and the code, interval and session id of the last answer are reported, or unable-to-deliver |
| `Failover.PeerMessageSender.Send` | src/peer_message_sender.cpp:45-88 | the first CCF is contacted with the ACR of the message |
| `Failover.PeerMessageSender.SendCb` | src/peer_message_sender.cpp:90-128 | only 3002 moves to the next CCF; everything else is reported as it is, accepted exactly for 2001 |
| `Failover.PeerMessageSender.OnOutcome` | src/ralf_transaction.cpp:15-48 | a timeout counts as 3002, an answer is reported with its code, interval and session id, and missing AVPs take their defaults |
| `Protocol.OutcomeAnswers` | src/peer_message_sender.cpp:94-127 | in the system an answer step is what a transaction's end yields: the next CCF, a report of what the answer says, or unable-to-deliver |
| `Protocol.SendsTheMessage` | src/peer_message_sender.cpp:69-76 | in the system a send gives the stack the ACR of the message for the next CCF |
| `Protocol.StoresAfter` | src/session_manager.cpp:80-119 | in the system an access changes one handler and the store it is at, a loss empties one store, and no other step touches a store |
| `Protocol.TimersAfter` | src/session_manager.cpp:295-335 | in the system a timer that is started calls back for the message's call as often as its interval fits the repeat-for time, and a deleted one never again |
| `SessionManagers.SessionManager.Handle` | src/session_manager.cpp:31-201 | on every state of the stores and whichever are reachable: a START or EVENT gets number 1; an INTERIM or STOP is dropped exactly if no reachable store holds the session, and otherwise every field of the message, every store and the timer deletion are as the first such session says; it makes the accesses of the automaton, touches the records of no other key, and reports contention only after more failures than it was permitted |
| `SessionManagers.SessionManager.HandleExisting` | src/session_manager.cpp:40-184 | the same for INTERIM and STOP, retries included |
| `SessionManagers.SessionManager.UpdateRemotes` | src/session_manager.cpp:92-128 | the remote loop follows the automaton, staying at a store until it does not contend, and the message carries the session field by field |
| `SessionManagers.SessionManager.RemoveRemotes` | src/session_manager.cpp:145-170 | the remote deletions follow the automaton, the timer is deleted unless there is none, and the message carries the session field by field |
| `SessionManagers.SessionManager.OnCcfResponse` | src/session_manager.cpp:277-444 | for every answer: exactly when Chronos is asked and with which interval, repeat-for time, timer and call; and every store after a START, a 5002 answer or a new timer id, whichever are reachable |
| `ManagerEffects.HandlesAsSpecified` | src/session_manager.cpp:48-184 | whatever is reachable, the automaton of `handle`, however often it starts again, leaves stores, message and timer request as specified |
| `ManagerEffects.RespondsAsSpecified` | src/session_manager.cpp:281-438 | whatever is reachable, the automaton leaves the stores as `on_ccf_response` is to leave them |
| `ManagerEffects.AsksAsSpecified` | src/session_manager.cpp:281-335 | the automaton asks Chronos exactly what is specified |
| `ManagerSpec.Asked` | src/session_manager.cpp:295-335 | every request has 0 < interval < repeat-for and is for the call of the message |
| `ManagerSpec.RenewsStoredTimer` | src/session_manager.cpp:183-302 | a network INTERIM accepted without an interval renews the stored timer with the stored interval, or posts one if there is none |
| `SessionManagers.SessionManager.UpdateTimerId` | src/session_manager.cpp:448-478 | the timer-id loop follows the automaton |
| `SessionManagers.SessionManager.InterimHealsStores` | src/session_manager.cpp:92-128 | replica healing, stated of the store objects and the outcome of `Handle`, which then never ends contending |
| `SessionStores.SessionStore.GetSessionData` | src/session_store.cpp:39-79 | the session with its version if the store is reachable and the record deserializes, else nothing |
| `SessionStores.SessionStore.SetSessionData` | src/session_store.cpp:81-107 | the CAS write: ERROR if unreachable, contention unless the CAS value is the current version or 0 for no record, else every field of the session under a fresh version, or no record if the doubled refresh time is not a positive 32-bit number; no other key is touched |
| `SessionStores.SessionStore.DeleteSessionDataSafely` | src/session_store.cpp:109-127 | deletion under CAS, touching no other key |
| `SessionStores.SessionStore.DeleteSessionData` | src/session_store.cpp:129-141 | unconditional deletion, which never contends |
| `SessionCodec.RoundTrip` | src/session_store.cpp:196-273 | every session survives serialization up to NUL truncation, all 32-bit values included |
| `SessionCodec.ReadIsStable` | src/session_store.cpp:229-273 | what was read can be written and read again unchanged |
| `SessionCodec.SerializeSession` | src/session_store.cpp:196-226 | the loop writes the document that describes the session |
| `SessionCodec.DeserializeSession` | src/session_store.cpp:229-273 | a session exactly for the documents that describe one, and that session |
| `CStrings.CanonExact` | src/session_store.cpp:204-219 | storing loses nothing exactly when no string holds a NUL |
| `SessionKey.KeySeparation` | src/session_store.cpp:177-182 | calls with named codes share a key exactly when they are the same or one call id is the other plus its role digit, with role 1 and function ten lower |
| `SessionKey.OneCallSeparation` | src/session_store.cpp:177-182 | for one call id and any 32-bit codes two calls share a key exactly when they are the same or digits can be shifted between role and function; roles written equally long never collide |
| `SessionKey.UnnamedCodesCollide` | src/handlers.cpp:128-148 | the only other call that shares the key of a named one with the same call id is role 11 with the function ten lower, for role 1 and a function above 9 |
| `SessionKey.CallIdSeparation` | src/session_store.cpp:177-182 | for call ids of different lengths and any codes two calls share a key exactly when the longer call id takes up leading digits of the other's codes |
| `BillingTask.ParseBody` | src/handlers.cpp:72-235 | the step-by-step checks give the verdict of `BillingTask.VerdictOf` on every body |
| `BillingTask.VerdictOf` | src/handlers.cpp:105-234 | on the members of the body: which are rejected, which START or EVENT is ignored for want of peers, and for which message, with which codes, record type, refresh time and CCFs, any other is accepted |
| `BillingTask.AcceptedMessages` | src/handlers.cpp:115-232 | a message can reach the session manager exactly if it is an INTERIM or STOP without CCFs, or a START or EVENT with at least one, whatever its codes and refresh time |
| `BillingTask.Run` | src/handlers.cpp:21-70 | a message reaches the session manager exactly from a proper POST; it has the call id of the path and says what the members of the body say, timer-driven exactly when the parameter is "true"; and which of 405, 400 and 200 is replied |
| `BillingTask.CallbackRoundTrip` | src/session_manager.cpp:203-236 | parsing the registered body yields a timer-driven INTERIM for the same call without CCFs or refresh time |
| `BillingTask.CreateOpaqueData` | src/session_manager.cpp:203-236 | the document built is the registered body |
| `Replicas.Kept` | src/session_store.cpp:97-103 | for which refresh times a written record stays in the store |

## Left out

- SessionManagers.SessionManager.Handle: the C++ code retries after contention without limit; the method takes a number of permitted retries and reports contention when they are used up. `RetryTermination` and `Livelock` say when retrying ends.
- SessionManagers.SessionManager.Handle: store reachability is constant during one call of the class method; in `Protocol` every access chooses it anew.
- SessionManagers.SessionManager.Handle: the class is the session manager of one site, its stores numbered in the order it asks them; that sites number each other's stores consistently is part of `HandlerMachine.Topology` only.
- SessionManagers.SessionManager.HandleExisting: the same limit on retries and the same constant reachability.
- SessionManagers.SessionManager.UpdateRemotes: the same limit on retries and the same constant reachability.
- RetryTermination.HandlingEnds: no bound for a STOP at a site with remote stores, which may use a remote CAS value on the local store; `Livelock.StopEndsIff` says exactly when it ends undisturbed.
- Failover.Deliver: needs an outcome for every CCF it may try; the Diameter stack always ends a transaction with an answer or a timeout.
- SessionStores.SessionStore.SetData: versions are counted per key, where the real store draws them from one counter; only their freshness matters.
- The construction of ACR AVPs (src/rf.cpp) and the dictionary; an ACR is session id, host, record number and record type.
- JSON text scanning and printing, URL escaping, the HTTP stack, memcached and Chronos internals.
- The passage of time in `Protocol`: expiry is a loss that may happen at any moment; `RecordLifetime` runs the same steps in time.
- RecordLifetime.EveryPopFindsTheRecord: starts at a moment when the session is in every store and its timer is armed; that the timer and the handlers keep the pace is an assumption on every moment of the run.
- SAS events, logs, alarms and the health checker.
- Heap ownership of sessions and JSON documents; only that of messages is modelled.
- Start-up, options and shutdown (src/main.cpp).
