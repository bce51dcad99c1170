/** The way of a timer through Chronos and back, across the HTTP front end, the
    session manager and the stores. */
module TimerCallback {
  import opened Wrappers
  import opened Accounting
  import opened SessionKey
  import opened Replicas
  import opened HandlerMachine
  import opened Solo
  import opened Undisturbed
  import opened BillingTask

  /** The handler is about to send the next ACR of the stored session `s`. */
  predicate SendsFor(h: Handler, s: Session) {
    && h.pc == Sending(0)
    && h.msg.recordNumber == s.recordNumber && h.msg.ccfs == s.ccfs && h.msg.sessionId == s.sessionId
    && h.msg.refreshTime == s.refreshTime && h.msg.interimInterval == s.interimInterval
  }

  /** When the timer of a call pops, the body that Ralf registered comes back as
      an INTERIM for the same key, which takes everything it lacks from the
      stores; and whatever is answered, no timer is armed again. */
  lemma CallbackContinuesSession(n: nat, ref: CallRef, rs: seq<Replica>)
    requires |rs| == n + 1 && AllClean(rs) && SomeHolds(rs)
    ensures var v := Judge(ref.callId, true, Some(OpaqueData(ref)));
            && v.Accepted? && CreateKey(v.msg.ref) == CreateKey(ref)
            && exists h': Handler, rs' :: SendsFor(h', Working(rs)) && Leads(n, Begin(0, v.msg), rs, h', rs')
                                          && NeverArms(n, h')
  {
    CallbackRoundTrip(ref);
    var m := TimerMessage(ref);
    InterimEffect(n, m, rs);
    var s := Working(rs);
    var h': Handler :| SendsAfter(h', Begin(0, m), s)
                       && Leads(n, Begin(0, m), rs, h', Swept(rs, Updater(s), 0));
    SiteKept(n, Begin(0, m), rs, h', Swept(rs, Updater(s), 0));
    assert SendsFor(h', s) && NeverArms(n, h');
  }

  ghost predicate NeverArms(n: nat, h: Handler) {
    && h.site == 0
    && forall accepted, interval, sessionId, rc :: !Respond(Star(n), h, accepted, interval, sessionId, rc).pc.Arming?
  }
}
