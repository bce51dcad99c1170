/** The session store of one site: JSON records in a compare-and-swap store. */
module SessionStores {
  import opened Wrappers
  import opened Accounting
  import opened CStrings
  import opened Json
  import opened SessionKey
  import opened SessionCodec
  import opened Replicas

  /** A stored text, as the JSON parser sees it, and its version. */
  datatype Blob = Blob(doc: Option<Json>, version: nat)

  function ContentOf(doc: Option<Json>): Content {
    match Decoded(doc)
    case Some(s) => Readable(s)
    case None => Unreadable
  }

  /** The CAS value is the version of the record, or 0 if there is none. */
  predicate Fits(r: Replica, cas: nat) {
    match r.entry
    case Some(e) => cas == e.version
    case None => cas == 0
  }

  /** The record now is the session up to NUL truncation, under a version never
      given out before; or there is none, if twice its refresh time is not a
      positive 32-bit number. */
  predicate Renewed(r: Replica, r': Replica, s: Session) {
    && r.clock < r'.clock
    && if 0 < (2 * s.refreshTime) % 0x1_0000_0000 < 0x8000_0000 then
         && Holds(r') && r'.entry.value.version == r'.clock
         && Current(r').sessionId == CStr(s.sessionId) && Current(r').ccfs == CStrs(s.ccfs)
         && Current(r').timerId == CStr(s.timerId) && Current(r').recordNumber == s.recordNumber
         && Current(r').refreshTime == s.refreshTime && Current(r').interimInterval == s.interimInterval
       else r'.entry.None?
  }

  class SessionStore {
    var table: map<string, Blob>
    /** The last version given out for each key. */
    var versions: map<string, nat>
    /** Whether the underlying store can be reached. */
    var up: bool

    constructor (reachable: bool)
      ensures table == map[] && versions == map[] && up == reachable
    {
      table, versions, up := map[], map[], reachable;
    }

    /** The record of one key. */
    ghost function At(key: string): Replica
      reads this
    {
      Replica(if key in table then Some(Entry(ContentOf(table[key].doc), table[key].version)) else None,
              if key in versions then versions[key] else 0)
    }

    function Version(key: string): nat
      reads this
    {
      if key in versions then versions[key] else 0
    }

    /** A record that does not deserialize counts as not found. */
    method GetSessionData(ref: CallRef) returns (r: Option<Held>)
      ensures r == Read(At(CreateKey(ref)), up)
      ensures r.Some? <==> up && Holds(At(CreateKey(ref)))
      ensures r.Some? ==>
                Some(Entry(Readable(r.value.session), r.value.cas)) == At(CreateKey(ref)).entry
    {
      var key := CreateKey(ref);
      r := None;
      if up && key in table {
        var session := DeserializeSession(table[key].doc);
        if session.Some? {
          r := Some(Held(session.value, table[key].version));
        }
      }
    }

    /** `Store::set_data`: the compare-and-swap write. */
    method SetData(key: string, doc: Option<Json>, cas: nat, expiry: int) returns (status: Status)
      modifies this
      ensures up == old(up)
      ensures status == WriteStatus(old(At(key)), cas, up)
      ensures !status.OK? ==> table == old(table) && versions == old(versions)
      ensures status.OK? ==>
                && At(key) == Replica(if expiry > 0 then Some(Entry(ContentOf(doc), old(At(key)).clock + 1)) else None,
                                      old(At(key)).clock + 1)
                && forall k :: k != key ==> At(k) == old(At(k))
    {
      if !up { return ERROR; }
      var current := if key in table then table[key].version else 0;
      if cas != current { return DATA_CONTENTION; }
      var version := Version(key) + 1;
      versions := versions[key := version];
      if expiry > 0 {
        table := table[key := Blob(doc, version)];
      } else {
        table := table - {key};
      }
      status := OK;
    }

    /** The record takes the session only if nobody has changed it since `cas`
        was read, and no other record is touched. */
    method SetSessionData(ref: CallRef, s: Session, cas: nat, newSession: bool) returns (status: Status)
      modifies this
      ensures up == old(up)
      ensures status == WriteStatus(old(At(CreateKey(ref))), if newSession then 0 else cas, up)
      ensures At(CreateKey(ref)) == Write(old(At(CreateKey(ref))), s, if newSession then 0 else cas, up)
      ensures status == if !up then ERROR
                        else if Fits(old(At(CreateKey(ref))), if newSession then 0 else cas) then OK else DATA_CONTENTION
      ensures !status.OK? ==> At(CreateKey(ref)) == old(At(CreateKey(ref)))
      ensures status.OK? ==> Renewed(old(At(CreateKey(ref))), At(CreateKey(ref)), s)
      ensures forall k :: k != CreateKey(ref) ==> At(k) == old(At(k))
    {
      var doc := SerializeSession(s);
      RoundTrip(s);
      status := SetData(CreateKey(ref), Some(doc), if newSession then 0 else cas, Expiry(s.refreshTime));
    }

    /** Deletion under CAS. */
    method DeleteSessionDataSafely(ref: CallRef, cas: nat) returns (status: Status)
      modifies this
      ensures up == old(up)
      ensures status == WriteStatus(old(At(CreateKey(ref))), cas, up)
      ensures At(CreateKey(ref)) == Erase(old(At(CreateKey(ref))), cas, up)
      ensures status == if !up then ERROR else if Fits(old(At(CreateKey(ref))), cas) then OK else DATA_CONTENTION
      ensures if status.OK? then At(CreateKey(ref)).entry.None? else At(CreateKey(ref)) == old(At(CreateKey(ref)))
      ensures forall k :: k != CreateKey(ref) ==> At(k) == old(At(k))
    {
      status := SetData(CreateKey(ref), None, cas, 0);
    }

    /** Unconditional deletion; it never reports contention. */
    method DeleteSessionData(ref: CallRef) returns (status: Status)
      modifies this
      ensures up == old(up)
      ensures status == if up then OK else ERROR
      ensures At(CreateKey(ref)) == Remove(old(At(CreateKey(ref))), up)
      ensures if up then At(CreateKey(ref)).entry.None? else At(CreateKey(ref)) == old(At(CreateKey(ref)))
      ensures forall k :: k != CreateKey(ref) ==> At(k) == old(At(k))
    {
      if !up { return ERROR; }
      var key := CreateKey(ref);
      versions := versions[key := Version(key) + 1];
      table := table - {key};
      status := OK;
    }
  }
}
