/** Sending one ACR to the first CCF that can be reached: `PeerMessageSender`
    and the `RalfTransaction` that calls it back. */
module Failover {
  import opened Wrappers
  import opened Uint32
  import opened Accounting

  const SUCCESS := 2001
  const UNABLE_TO_DELIVER := 3002
  const UNKNOWN_SESSION_ID := 5002

  const MISSING_SESSION_ID := "<value not found in Diameter message>"

  /** How one transaction ends. AVPs may be missing from an answer. */
  datatype Outcome =
    | Timeout
    | Response(resultCode: Option<int32>, interval: Option<int32>, sessionId: Option<string>)

  /** The call of `on_ccf_response` that the session manager sees. */
  datatype Report = Report(accepted: bool, interval: int32, sessionId: string, rc: int32)

  datatype Decision = Report | Resend | GiveUp

  /** Only "unable to deliver" moves on, and only while CCFs are left. */
  function Decide(which: nat, ccfs: nat, rc: int): Decision {
    if rc != UNABLE_TO_DELIVER then Decision.Report
    else if which + 1 < ccfs then Resend
    else GiveUp
  }

  function CodeOf(o: Outcome): int32 {
    match o
    case Timeout => UNABLE_TO_DELIVER
    case Response(rc, _, _) => if rc.Some? then rc.value else 0
  }

  /** The AVPs that a transaction hands to the sender. */
  function IntervalOf(o: Outcome): int32 {
    if o.Response? && o.interval.Some? then o.interval.value else 0
  }

  function SessionIdOf(o: Outcome): string {
    if o.Timeout? then "" else if o.sessionId.Some? then o.sessionId.value else MISSING_SESSION_ID
  }

  /** The ACR a message becomes for one CCF. */
  function AcrTo(m: Message, ccf: string): Acr {
    Acr(m.sessionId, ccf, m.recordNumber, m.recordType)
  }

  function AcrsTo(m: Message, ccfs: seq<string>): (acrs: seq<Acr>)
    ensures |acrs| == |ccfs|
    ensures forall i :: 0 <= i < |ccfs| ==> acrs[i] == AcrTo(m, ccfs[i])
  {
    seq(|ccfs|, i requires 0 <= i < |ccfs| => AcrTo(m, ccfs[i]))
  }

  class PeerMessageSender {
    var msg: Message
    var ccfs: seq<string>
    var which: nat
    /** The ACRs given to the Diameter stack. */
    var sent: seq<Acr>
    /** The call back into the session manager, after which the sender is deleted. */
    var report: Option<Report>

    ghost predicate Waiting()
      reads this
    {
      && report.None?
      && ccfs == msg.ccfs
      && which < |ccfs|
      && sent == AcrsTo(msg, ccfs[..which + 1])
    }

    constructor (m: Message)
      ensures msg == m && ccfs == [] && which == 0 && sent == [] && report == None
    {
      msg, ccfs, which, sent, report := m, [], 0, [], None;
    }

    method Send(m: Message)
      requires m.ccfs != [] && which == 0 && sent == [] && report.None?
      modifies this
      ensures Waiting() && msg == m && which == 0
      ensures |sent| == 1 && IsAcrOf(sent[0], m, m.ccfs[0])
    {
      msg := m;
      ccfs := m.ccfs;
      IntSendMsg();
    }

    method IntSendMsg()
      requires which < |ccfs|
      modifies `sent
      ensures sent == old(sent) + [AcrTo(msg, ccfs[which])]
      ensures IsAcrOf(sent[|sent| - 1], msg, ccfs[which])
    {
      sent := sent + [AcrTo(msg, ccfs[which])];
    }

    method SendCb(rc: int32, interval: int32, sessionId: string)
      requires Waiting()
      modifies this
      ensures msg == old(msg) && ccfs == old(ccfs)
      ensures rc != 3002 ==> report == Some(Report.Report(rc == 2001, interval, sessionId, rc)) && sent == old(sent)
      ensures rc == 3002 && old(which) + 1 < |ccfs| ==> Waiting() && which == old(which) + 1
      ensures rc == 3002 && old(which) + 1 == |ccfs| ==>
                report == Some(Report.Report(false, 0, "", 3002)) && sent == old(sent)
    {
      if rc != UNABLE_TO_DELIVER {
        report := Some(Report.Report(rc == SUCCESS, interval, sessionId, rc));
      } else {
        which := which + 1;
        if which < |ccfs| {
          assert ccfs[..which + 1] == ccfs[..which] + [ccfs[which]];
          IntSendMsg();
        } else {
          report := Some(Report.Report(false, 0, "", rc));
        }
      }
    }

    /** `RalfTransaction::on_timeout` and `on_response`. */
    method OnOutcome(o: Outcome)
      requires Waiting()
      modifies this
      ensures msg == old(msg) && ccfs == old(ccfs)
      ensures !Undelivered(o) ==> report.Some? && Tells(report.value, o) && sent == old(sent)
      ensures Undelivered(o) && old(which) + 1 < |ccfs| ==>
                && Waiting() && which == old(which) + 1
                && |sent| == |old(sent)| + 1 && IsAcrOf(sent[|sent| - 1], msg, ccfs[which])
      ensures Undelivered(o) && old(which) + 1 == |ccfs| ==>
                report == Some(Report.Report(false, 0, "", 3002)) && sent == old(sent)
    {
      match o {
        case Timeout =>
          SendCb(UNABLE_TO_DELIVER, 0, "");
        case Response(rc, interval, sessionId) =>
          var resultCode, interimInterval, id := 0, 0, MISSING_SESSION_ID;
          if rc.Some? { resultCode := rc.value; }
          if sessionId.Some? { id := sessionId.value; }
          if interval.Some? { interimInterval := interval.value; }
          SendCb(resultCode, interimInterval, id);
      }
    }
  }

  /** The transaction timed out or was answered "unable to deliver". */
  predicate Undelivered(o: Outcome) {
    o.Timeout? || o.resultCode == Some(3002)
  }

  /** The report says what is in the answer, with the defaults for what is not. */
  predicate Tells(r: Report, o: Outcome) {
    && o.Response?
    && (r.accepted <==> o.resultCode == Some(2001))
    && (o.resultCode == Some(r.rc) || (o.resultCode.None? && r.rc == 0))
    && (o.interval == Some(r.interval) || (o.interval.None? && r.interval == 0))
    && (o.sessionId == Some(r.sessionId)
        || (o.sessionId.None? && r.sessionId == "<value not found in Diameter message>"))
  }

  /** The ACR is that of the message, for this CCF. */
  predicate IsAcrOf(a: Acr, m: Message, ccf: string) {
    && a.host == ccf
    && a.sessionId == m.sessionId
    && a.recordNumber == m.recordNumber
    && a.recordType == m.recordType
  }

  /** Failover: with one outcome for every CCF that could be tried, the CCFs
      contacted are a prefix of the list, in order and once each, every one with
      the session id, record number and record type of the message; all but the
      last were not delivered; and what is reported is the answer of the last,
      or "unable to deliver" if that is the end of the list and it was not
      delivered either. */
  method Deliver(m: Message, outcomes: seq<Outcome>) returns (acrs: seq<Acr>, result: Report)
    requires m.ccfs != [] && |outcomes| >= |m.ccfs|
    ensures 1 <= |acrs| <= |m.ccfs|
    ensures forall i :: 0 <= i < |acrs| ==> IsAcrOf(acrs[i], m, m.ccfs[i])
    ensures forall i :: 0 <= i < |acrs| - 1 ==> Undelivered(outcomes[i])
    ensures var last := outcomes[|acrs| - 1];
            if Undelivered(last) then |acrs| == |m.ccfs| && result == Report.Report(false, 0, "", 3002)
            else Tells(result, last)
  {
    var sender := new PeerMessageSender(m);
    sender.Send(m);
    while sender.report.None?
      invariant sender.msg == m && sender.ccfs == m.ccfs && 1 <= |sender.sent| <= |m.ccfs|
      invariant sender.report.None? ==> sender.Waiting()
      invariant forall i :: 0 <= i < |sender.sent| ==> IsAcrOf(sender.sent[i], m, m.ccfs[i])
      invariant forall i :: 0 <= i < |sender.sent| - 1 ==> Undelivered(outcomes[i])
      invariant sender.report.Some? ==>
                  var last := outcomes[|sender.sent| - 1];
                  if Undelivered(last) then
                    |sender.sent| == |m.ccfs| && sender.report.value == Report.Report(false, 0, "", 3002)
                  else Tells(sender.report.value, last)
      decreases sender.report.None?, |m.ccfs| - |sender.sent|
    {
      sender.OnOutcome(outcomes[sender.which]);
    }
    acrs := sender.sent;
    result := sender.report.value;
  }
}
