/** One store's copy of the record of one key, and the contract of the
    underlying compare-and-swap store:

    - a write succeeds only with the current version, version 0 meaning "add if
      absent"; any other write is data contention and changes nothing;
    - every successful change takes a fresh version;
    - a write whose expiry is not positive leaves the key absent;
    - a plain removal is unconditional;
    - an unreachable store changes nothing. */
module Replicas {
  import opened Wrappers
  import opened Uint32
  import opened Accounting
  import opened CStrings

  /** `Unreadable` is a record that does not deserialize. */
  datatype Content = Readable(session: Session) | Unreadable

  datatype Entry = Entry(content: Content, version: nat)

  /** `clock` is the last version given out. */
  datatype Replica = Replica(entry: Option<Entry>, clock: nat)

  datatype Status = OK | DATA_CONTENTION | ERROR

  /** A session and the CAS value it was read with. */
  datatype Held = Held(session: Session, cas: nat)

  predicate Sound(r: Replica) {
    r.entry.Some? ==> 1 <= r.entry.value.version <= r.clock
  }

  predicate Holds(r: Replica) {
    r.entry.Some? && r.entry.value.content.Readable?
  }

  /** What record there is deserializes. */
  predicate Clean(r: Replica) {
    r.entry.Some? ==> r.entry.value.content.Readable?
  }

  ghost predicate AllClean(rs: seq<Replica>) {
    forall i :: 0 <= i < |rs| ==> Clean(rs[i])
  }

  function Current(r: Replica): Session
    requires Holds(r)
  {
    r.entry.value.content.session
  }

  /** The signed 32-bit expiry that `2 * session_refresh_time` becomes. */
  function Expiry(refreshTime: uint32): int32 {
    ToSigned((2 * refreshTime) % LIMIT)
  }

  /** The refresh times for which a written record stays in the store. */
  lemma Kept(refreshTime: uint32)
    ensures Expiry(refreshTime) > 0 <==> 0 < refreshTime < 0x4000_0000
                                         || 0x8000_0000 < refreshTime < 0xC000_0000
    ensures 0 < refreshTime < 0x4000_0000 ==> Expiry(refreshTime) == 2 * refreshTime
  {
  }

  predicate Matches(r: Replica, cas: nat) {
    cas == if r.entry.Some? then r.entry.value.version else 0
  }

  function Read(r: Replica, up: bool): Option<Held> {
    if up && Holds(r) then Some(Held(Current(r), r.entry.value.version)) else None
  }

  function WriteStatus(r: Replica, cas: nat, up: bool): Status {
    if !up then ERROR else if Matches(r, cas) then OK else DATA_CONTENTION
  }

  function Written(r: Replica, s: Session): Replica {
    Replica(if Expiry(s.refreshTime) > 0 then Some(Entry(Readable(Canon(s)), r.clock + 1)) else None,
            r.clock + 1)
  }

  function Write(r: Replica, s: Session, cas: nat, up: bool): Replica {
    if WriteStatus(r, cas, up).OK? then Written(r, s) else r
  }

  function Emptied(r: Replica): Replica {
    Replica(None, r.clock + 1)
  }

  /** Deletion under CAS: a write of expiry 0. */
  function Erase(r: Replica, cas: nat, up: bool): Replica {
    if WriteStatus(r, cas, up).OK? then Emptied(r) else r
  }

  function Remove(r: Replica, up: bool): Replica {
    if up then Emptied(r) else r
  }
}
