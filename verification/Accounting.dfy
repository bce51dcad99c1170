/** The values that travel through Ralf: what identifies a call, the message
    built from an HTTP request, the session kept in the stores, and the ACR. */
module Accounting {
  import opened Uint32

  datatype RecordType = Event | Start | Interim | Stop

  /** SIP call id, Role-Of-Node and Node-Functionality. The two codes are cast
      from the JSON integers without a range check. */
  datatype CallRef = CallRef(callId: string, role: int32, function_: int32)

  datatype Message = Message(
    ref: CallRef,
    recordType: RecordType,
    timerInterim: bool,
    refreshTime: uint32,
    ccfs: seq<string>,
    sessionId: string,
    recordNumber: uint32,
    timerId: string,
    interimInterval: uint32)

  datatype Session = Session(
    sessionId: string,
    ccfs: seq<string>,
    recordNumber: uint32,
    timerId: string,
    refreshTime: uint32,
    interimInterval: uint32)

  datatype Acr = Acr(sessionId: string, host: string, recordNumber: uint32, recordType: RecordType)

  /** The value of a timer id while no Chronos timer exists. */
  const NO_TIMER := "NO_TIMER"

  /** A message as its constructor leaves it. */
  function NewMessage(ref: CallRef, recordType: RecordType, timerInterim: bool,
                      refreshTime: uint32, ccfs: seq<string>): Message
  {
    Message(ref, recordType, timerInterim, refreshTime, ccfs, "", 0, "", 0)
  }

  /** The message Ralf receives when one of its Chronos timers pops
      (`BillingTask.CallbackRoundTrip` ties this to the request Ralf registered). */
  function TimerMessage(ref: CallRef): Message {
    NewMessage(ref, Interim, true, 0, [])
  }

  /** `acct_record_number += 1`. */
  function Bump(s: Session): Session {
    s.(recordNumber := Next(s.recordNumber))
  }
}
