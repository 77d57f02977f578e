// How the bindings turn an OGRErr code returned by the library into the
// message of a JavaScript exception.
module OgrErrors {
  import Outcomes

  /** The OGRErr codes the message table knows: OGRERR_NONE (0) up to
    * OGRERR_UNSUPPORTED_SRS (7). */
  const NONE := 0
  const NOT_ENOUGH_DATA := 1
  const NOT_ENOUGH_MEMORY := 2
  const UNSUPPORTED_GEOMETRY_TYPE := 3
  const UNSUPPORTED_OPERATION := 4
  const CORRUPT_DATA := 5
  const FAILURE := 6
  const UNSUPPORTED_SRS := 7

  /** The switch of getOGRErrMsg: "Invalid Error" exactly for the codes it
    * has no case for. */
  function TableMessage(err: int): (m: string)
    ensures m == "Invalid Error" <==> err < 0 || err > 7
  {
    match err
    case 0 => "No error"
    case 1 => "Not enough data"
    case 2 => "Not enough memory"
    case 3 => "Unsupported geometry type"
    case 4 => "Unsupported operation"
    case 5 => "Corrupt Data"
    case 6 => "Failure"
    case 7 => "Unsupported SRS"
    case _ => "Invalid Error"
  }

  /** getOGRErrMsg: OGRERR_FAILURE reports the library's last error message
    * (lastErrorMsg, what CPLGetLastErrorMsg returns at that moment); every
    * other code is looked up in the table. */
  function OgrErrMsg(err: int, lastErrorMsg: string): (m: string)
    ensures err == FAILURE ==> m == lastErrorMsg
    ensures err != FAILURE && 0 <= err <= 7 ==> m != "Invalid Error" && m != "Failure"
    ensures (err < 0 || err > 7) ==> m == "Invalid Error"
  {
    if err == FAILURE then lastErrorMsg else TableMessage(err)
  }

  /** The inverse of the table over the codes whose message is fixed. */
  function CodeOf(m: string): (r: Outcomes.Option<int>)
    ensures r.Some? ==> 0 <= r.value <= 7 && r.value != FAILURE
  {
    if m == "No error" then Outcomes.Some(NONE)
    else if m == "Not enough data" then Outcomes.Some(NOT_ENOUGH_DATA)
    else if m == "Not enough memory" then Outcomes.Some(NOT_ENOUGH_MEMORY)
    else if m == "Unsupported geometry type" then Outcomes.Some(UNSUPPORTED_GEOMETRY_TYPE)
    else if m == "Unsupported operation" then Outcomes.Some(UNSUPPORTED_OPERATION)
    else if m == "Corrupt Data" then Outcomes.Some(CORRUPT_DATA)
    else if m == "Unsupported SRS" then Outcomes.Some(UNSUPPORTED_SRS)
    else Outcomes.None
  }

  /** Every code with a fixed message can be recovered from its message, so
    * no two such codes share one. */
  lemma FixedMessagesIdentifyCode(err: int, lastErrorMsg: string)
    requires 0 <= err <= 7 && err != FAILURE
    ensures CodeOf(OgrErrMsg(err, lastErrorMsg)) == Outcomes.Some(err)
  {
  }

  lemma FixedMessagesDistinct(a: int, b: int, lastA: string, lastB: string)
    requires 0 <= a <= 7 && a != FAILURE && 0 <= b <= 7 && b != FAILURE
    ensures OgrErrMsg(a, lastA) == OgrErrMsg(b, lastB) <==> a == b
  {
    FixedMessagesIdentifyCode(a, lastA);
    FixedMessagesIdentifyCode(b, lastB);
  }

  /** The table's "Failure" entry is never used: the message "Failure" comes
    * out only when the library's last message itself says so. */
  lemma FailureEntryUnreachable(err: int, lastErrorMsg: string)
    ensures OgrErrMsg(err, lastErrorMsg) == "Failure" ==> err == FAILURE && lastErrorMsg == "Failure"
    ensures TableMessage(FAILURE) == "Failure"
  {
  }

  /** The codes outside the table share one message, which no code inside it
    * gives unless the library's last message happens to read the same. */
  lemma InvalidCodes(err: int, lastErrorMsg: string)
    ensures OgrErrMsg(err, lastErrorMsg) == "Invalid Error" <==>
      (err < 0 || err > 7 || (err == FAILURE && lastErrorMsg == "Invalid Error"))
  {
  }

  /** What a call of a method generated by the OGRErr-result wrapper ends
    * with: nothing (undefined) or a thrown error with a message. */
  datatype CallOutcome = Undefined | ThrownError(message: string)

  /** The async OGRErr-result method wrapper once its argument has been
    * unwrapped: a destroyed receiver is refused, otherwise the wrapped
    * method runs and a non-zero code is thrown with its message. */
  function OgrErrWrapper(klass: string, alive: bool, err: int, lastErrorMsg: string): (r: CallOutcome)
    ensures !alive ==> r == ThrownError(klass + " object has already been destroyed")
    ensures alive ==> (r.ThrownError? <==> err != NONE)
    ensures alive && err != NONE ==> r.message == OgrErrMsg(err, lastErrorMsg)
  {
    if !alive then ThrownError(klass + " object has already been destroyed")
    else if err != NONE then ThrownError(OgrErrMsg(err, lastErrorMsg))
    else Undefined
  }

  /** Unless the library's last message is itself "No error", the wrapper
    * never throws "No error", the message of code 0. */
  lemma WrapperNeverThrowsNoError(klass: string, err: int, lastErrorMsg: string)
    requires lastErrorMsg != "No error"
    ensures OgrErrWrapper(klass, true, err, lastErrorMsg) != ThrownError("No error")
  {
    if err != NONE && OgrErrMsg(err, lastErrorMsg) == "No error" {
      FixedMessagesIdentifyCode(err, lastErrorMsg);
    }
  }
}
