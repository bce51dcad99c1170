/** Strings that pass through `c_str()` or `GetString()` lose everything from
    their first NUL character on. */
module CStrings {
  import opened Accounting

  function CStr(s: string): (r: string)
    ensures r <= s
    ensures '\0' !in r
    ensures |r| < |s| ==> s[|r|] == '\0'
  {
    if s == "" || s[0] == '\0' then "" else [s[0]] + CStr(s[1..])
  }

  function CStrs(ss: seq<string>): (r: seq<string>)
    ensures |r| == |ss|
    ensures forall i :: 0 <= i < |ss| ==> r[i] == CStr(ss[i])
  {
    seq(|ss|, i requires 0 <= i < |ss| => CStr(ss[i]))
  }

  predicate NulFree(s: Session) {
    && '\0' !in s.sessionId
    && '\0' !in s.timerId
    && forall i :: 0 <= i < |s.ccfs| ==> '\0' !in s.ccfs[i]
  }

  /** What a session becomes by being written to a store and read back. */
  function Canon(s: Session): (r: Session)
    ensures NulFree(r)
    ensures |r.ccfs| == |s.ccfs|
    ensures r.recordNumber == s.recordNumber && r.refreshTime == s.refreshTime
    ensures r.interimInterval == s.interimInterval
  {
    s.(sessionId := CStr(s.sessionId), ccfs := CStrs(s.ccfs), timerId := CStr(s.timerId))
  }

  lemma CStrOfNulFree(s: string)
    ensures '\0' !in s <==> CStr(s) == s
  {
  }

  /** Storing a session loses nothing exactly when none of its strings holds a NUL. */
  lemma CanonExact(s: Session)
    ensures Canon(s) == s <==> NulFree(s)
  {
    CStrOfNulFree(s.sessionId);
    CStrOfNulFree(s.timerId);
    forall i | 0 <= i < |s.ccfs|
      ensures '\0' !in s.ccfs[i] <==> CStr(s.ccfs[i]) == s.ccfs[i]
    {
      CStrOfNulFree(s.ccfs[i]);
    }
    if NulFree(s) {
      assert CStrs(s.ccfs) == s.ccfs;
    }
  }
}
