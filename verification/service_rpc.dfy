/** A call made by a service thread: what the thread that runs it assigns to the return status of its frame,
    and the endings that assign nothing. A final diagnosis is assigned with its status once in the life of a
    frame; a status alone is assigned each time. */
module ServiceRpc {
  import opened Strings
  import opened ActiveQueues

  const INIT_NOT_ASSIGNED_YET := -998
  const NO_RETURN_STATUS_YET := -999
  const DS_FAIL_CANNOT_RETRY := -1105
  const PARSE_ERROR_CANNOT_GET_PARAMS := -1160

  /** What the parser of responses gives back. Mask has bit 1 for a disconnection, 2 for a timeout, 4 for
      bytes received; a response without its last parts makes analyzeResponse() raise an exception. */
  datatype Response = NoResponse | Text | NotATuple | Incomplete | Parsed(status: int, mask: nat)

  datatype Analysis = Again | Status(status: int)

  /** analyzeResponse(), and the status that processResponse() keeps when it fails. */
  function Analyzed(r: Response): Analysis {
    match r
    case NoResponse => Status(DS_RPC_TIMEOUT)
    case Text => Status(DS_FAIL_CANNOT_RETRY)
    case NotATuple => Status(DS_FAIL_CANNOT_RETRY)
    case Incomplete => Status(NO_RETURN_STATUS_YET)
    case Parsed(status, mask) =>
      if mask == 1 then Again
      else if mask == 0 then Status(status)
      else if mask / 4 % 2 == 1 then Status(DS_FAIL_CANNOT_RETRY)
      else if mask % 2 == 1 then Status(DS_NOT_AVAIL)
      else Status(DS_RPC_TIMEOUT)
  }

  datatype Send = SendOk | NotValid | NotAvailable | SendFailed

  /** One turn of the retry loop: whether there is time to send, the send, whether there is time to receive,
      the response, and whether the destination could be connected to again after it. */
  datatype Attempt = Attempt(timeToSend: bool, send: Send, timeToReceive: bool, response: Response, reset: bool)

  /** All that a run of the monitor meets. */
  datatype Run = Run(connected: bool, waitedTooLong: bool, first: Attempt, second: Attempt)

  datatype Diagnosis = PROC_CALL_NOT_VALID | DS_SERVER_NOT_AVAILABLE

  /** What is done to the frame: nothing; a status; or a status with its final diagnosis. */
  datatype Assignment = Nothing | Plain(ret: int) | Final(diag: Diagnosis)

  function StatusOf(diag: Diagnosis): int {
    match diag case PROC_CALL_NOT_VALID => PARSE_ERROR_CANNOT_GET_PARAMS case DS_SERVER_NOT_AVAILABLE => DS_NOT_AVAIL
  }

  /** What the turn does to the frame; it is repeated when its response allows that. */
  function DoneIn(a: Attempt): Assignment {
    if !a.timeToSend then Nothing
    else match a.send
         case NotValid => Final(PROC_CALL_NOT_VALID)
         case NotAvailable => Final(DS_SERVER_NOT_AVAILABLE)
         case SendFailed => Nothing
         case SendOk =>
           if !a.timeToReceive || Analyzed(a.response).Again? then Nothing
           else Plain(Analyzed(a.response).status)
  }

  predicate Repeated(a: Attempt) {
    a.timeToSend && a.send == SendOk && a.timeToReceive && Analyzed(a.response).Again?
  }

  /** What the run does to the frame. */
  function DoneBy(r: Run): Assignment {
    if !r.connected then Final(DS_SERVER_NOT_AVAILABLE)
    else if r.waitedTooLong then Nothing
    else if !Repeated(r.first) then DoneIn(r.first)
    else if !r.first.reset then Nothing
    else DoneIn(r.second)
  }

  /** The status that is assigned, in a frame that has this diagnosis. */
  function Assigned(diag: Option<Diagnosis>, a: Assignment): Option<int> {
    match a
    case Nothing => None
    case Plain(ret) => Some(ret)
    case Final(d) => if diag == None then Some(StatusOf(d)) else None
  }

  function DiagnosisAfter(diag: Option<Diagnosis>, a: Assignment): Option<Diagnosis> {
    if a.Final? && diag == None then Some(a.diag) else diag
  }

  /** The return status of a frame, and its final diagnosis. */
  datatype Marks = Marks(ret: int, diag: Option<Diagnosis>)

  const NEW_FRAME := Marks(INIT_NOT_ASSIGNED_YET, None)

  function AfterDone(v: Marks, a: Assignment): Marks {
    var given := Assigned(v.diag, a);
    Marks(if given.Some? then given.value else v.ret, DiagnosisAfter(v.diag, a))
  }

  class RpcFrame {
    var returnStatus: int
    var finalDiagnosis: Option<Diagnosis>

    function Value(): Marks reads this { Marks(returnStatus, finalDiagnosis) }

    constructor ()
      ensures Value() == NEW_FRAME
    {
      returnStatus, finalDiagnosis := INIT_NOT_ASSIGNED_YET, None;
    }

    /** Only the first final diagnosis of a frame counts. */
    method AssignReturnStatusAndFinalDiagnosis(diag: Diagnosis)
      modifies this
      ensures Value() == if old(finalDiagnosis) == None then Marks(StatusOf(diag), Some(diag)) else old(Value())
    {
      if finalDiagnosis != None { return; }
      finalDiagnosis := Some(diag);
      returnStatus := StatusOf(diag);
    }
  }

  method SendProcCall(frame: RpcFrame, send: Send) returns (ok: bool)
    modifies frame
    ensures ok <==> send == SendOk
    ensures frame.Value() == AfterDone(old(frame.Value()), match send
                                                           case NotValid => Final(PROC_CALL_NOT_VALID)
                                                           case NotAvailable => Final(DS_SERVER_NOT_AVAILABLE)
                                                           case _ => Nothing)
  {
    match send {
      case NotValid => frame.AssignReturnStatusAndFinalDiagnosis(PROC_CALL_NOT_VALID);
      case NotAvailable => frame.AssignReturnStatusAndFinalDiagnosis(DS_SERVER_NOT_AVAILABLE);
      case _ =>
    }
    ok := send == SendOk;
  }

  /** processResponse(); again asks for another turn. */
  method ProcessResponse(frame: RpcFrame, response: Response) returns (again: bool)
    modifies frame
    ensures again <==> Analyzed(response).Again?
    ensures frame.Value() == AfterDone(old(frame.Value()), if again then Nothing else Plain(Analyzed(response).status))
  {
    var a := Analyzed(response);
    if a.Again? { return true; }
    frame.returnStatus := a.status;
    again := false;
  }

  /** sendRPCcallAndReceiveResponse() of the intercepting monitor; raised is whether it raises an exception.
      abortRPCandTellClient(), which ends it in five places, assigns no status. */
  method SendRpcCallAndReceiveResponse(frame: RpcFrame, r: Run) returns (raised: bool)
    requires r.connected
    modifies frame
    ensures frame.Value() == AfterDone(old(frame.Value()), DoneBy(r))
  {
    if r.waitedTooLong { return false; }
    var retryCtr := 0;
    while true
      invariant retryCtr <= 1 && frame.Value() == old(frame.Value())
      invariant retryCtr == 1 ==> Repeated(r.first) && r.first.reset
      decreases 1 - retryCtr
    {
      var a := if retryCtr == 0 then r.first else r.second;
      if !a.timeToSend { return false; }
      var ok := SendProcCall(frame, a.send);
      if !ok { return true; }
      if !a.timeToReceive { return false; }
      var again := ProcessResponse(frame, a.response);
      if !again { return false; }
      if retryCtr == 1 || !a.reset { return false; }
      retryCtr := retryCtr + 1;
    }
  }

  // ----- The turn that ends a run, and what it leaves in the frame

  predicate HasBit(mask: nat, bit: nat)
    requires bit > 0
  {
    mask / bit % 2 == 1
  }

  /** A response is looked at in the turn. */
  predicate Gets(a: Attempt) { a.timeToSend && a.send == SendOk && a.timeToReceive }

  /** The call is made again: it met a disconnection, with no timeout and no data before it, and then the
      destination was connected to again. */
  predicate MadeAgain(r: Run) {
    Gets(r.first) && r.first.response.Parsed? && r.first.response.mask == 1 && r.first.reset
  }

  predicate LastTurn(r: Run, a: Attempt) {
    r.connected && !r.waitedTooLong && a == if MadeAgain(r) then r.second else r.first
  }

  /** The run ends with this response. */
  predicate EndsWith(r: Run, response: Response) {
    exists a :: a in {r.first, r.second} && LastTurn(r, a) && Gets(a) && a.response == response
  }

  /** A complete response has its status assigned. One that is cut off has it replaced: when some of its data
      came, by one with which the call is never made again; or else by that of a destination that is not
      available, when the connection was lost, or that of a timeout. A disconnection alone assigns nothing. */
  lemma EndedByParsed(r: Run, status: int, mask: nat)
    requires EndsWith(r, Parsed(status, mask))
    ensures mask == 0 ==> DoneBy(r) == Plain(status)
    ensures mask == 1 ==> DoneBy(r) == Nothing
    ensures HasBit(mask, 4) ==> DoneBy(r) == Plain(-1105) && VerdictOn(-1105) == Drop
    ensures mask > 1 && !HasBit(mask, 4) && HasBit(mask, 1) ==> DoneBy(r) == Plain(-1100)
    ensures mask > 1 && !HasBit(mask, 4) && !HasBit(mask, 1) ==> DoneBy(r) == Plain(-1101)
  {}

  /** The other ends of a run. */
  lemma EndedOtherwise(r: Run)
    ensures EndsWith(r, NoResponse) ==> DoneBy(r) == Plain(-1101)
    ensures EndsWith(r, Text) || EndsWith(r, NotATuple) ==> DoneBy(r) == Plain(-1105)
    ensures EndsWith(r, Incomplete) ==> DoneBy(r) == Plain(-999)
    ensures !r.connected ==> DoneBy(r) == Final(DS_SERVER_NOT_AVAILABLE)
    ensures r.connected && r.waitedTooLong ==> DoneBy(r) == Nothing
    ensures forall a :: LastTurn(r, a) && !Gets(a) ==>
              DoneBy(r) == if a.timeToSend && a.send == NotValid then Final(PROC_CALL_NOT_VALID)
                           else if a.timeToSend && a.send == NotAvailable then Final(DS_SERVER_NOT_AVAILABLE)
                           else Nothing
    ensures StatusOf(PROC_CALL_NOT_VALID) == -1160 && StatusOf(DS_SERVER_NOT_AVAILABLE) == -1100
  {}

  /** A call is taken for done if and only if its destination has sent a complete response with the status 0. */
  lemma DoneIff(r: Run)
    ensures DoneBy(r) == Plain(0) <==> EndsWith(r, Parsed(0, 0))
  {
    if EndsWith(r, Parsed(0, 0)) { EndedByParsed(r, 0, 0); }
    if DoneBy(r) == Plain(0) {
      var a := if MadeAgain(r) then r.second else r.first;
      assert LastTurn(r, a) && Gets(a);
    }
  }

  /** gxServiceRPCmonitor.runThread(): the callback that it ends with is the release of the lock in the
      handshake with the queue's thread. */
  method RunThread(frame: RpcFrame, r: Run)
    modifies frame
    ensures frame.Value() == AfterDone(old(frame.Value()), DoneBy(r))
    ensures forall status :: EndsWith(r, Parsed(status, 0)) ==> frame.returnStatus == status
    ensures frame.returnStatus == 0 <==> EndsWith(r, Parsed(0, 0))
                                         || (old(frame.returnStatus) == 0
                                             && Assigned(old(frame.finalDiagnosis), DoneBy(r)) == None)
  {
    DoneIff(r);
    forall status | EndsWith(r, Parsed(status, 0)) ensures DoneBy(r) == Plain(status) { EndedByParsed(r, status, 0); }
    if !r.connected {
      frame.AssignReturnStatusAndFinalDiagnosis(DS_SERVER_NOT_AVAILABLE);
      return;
    }
    var _ := SendRpcCallAndReceiveResponse(frame, r);
  }
}
