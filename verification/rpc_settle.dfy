/** Settling a forwarded call: which of the outcomes the client is left with, whether the call is
    sent again, and what happens to the two connections. */
module RpcSettle {
  import opened Strings
  import opened XmltpTokens
  import opened XmltpWriter
  import opened RespText
  import opened RespReader
  import opened RpcRelay
  import opened RespParse
  import opened RespView

  /** Where one call can leave the client. Gapped is connected, with a response from which something is
      missing; CutReply is disconnected after the beginning of a reply; Silent is neither replied to nor
      disconnected. */
  datatype Outcome = Whole | Gapped | Replied(ret: int) | CutReply(ret: int) | Cut | Silent

  /** w0 and w are the client's wire before and after, cs the chunks that were received, and parts what was
      relayed of them. */
  ghost predicate Left(o: Outcome, cs: seq<string>, parts: seq<string>, w0: seq<WireItem>, w: seq<WireItem>,
                       disconnected: bool) {
    match o
    case Whole => !disconnected && CompleteResponse(cs) && parts == cs && w == w0 + RelayedOf(cs)
    case Gapped => !disconnected && CompleteResponse(cs) && parts != cs && w == w0 + RelayedOf(parts)
    case Replied(ret) => !disconnected && parts == [] && w == w0 + [StatusReply(ret)]
    case CutReply(ret) => disconnected && parts == [] && w == w0 + [PartOfReply(ret)]
    case Cut => disconnected && w == w0 + RelayedOf(parts)
    case Silent => !disconnected && parts == [] && w == w0
  }

  /** What a status reply leads to, when its send ends so. */
  function OutcomeOf(end: ClientSend, ret: int): Outcome {
    match end
    case Passes => Replied(ret)
    case PassesPart(_) => CutReply(ret)
    case Breaks => Cut
    case Fails => Silent
  }

  /** sendMessageAndReturnStatusToClient(): one reply per frame. A send that does not pass all of it
      disconnects the client only when it is diagnosed as a broken connection, as one that passes a part is. */
  method SendMessageAndReturnStatusToClient(frame: Frame, clt: Client, ret: int) returns (rc: int)
    modifies frame`replyDone, clt`wire, clt`sendPlan, clt`disconnected
    ensures old(clt.disconnected) ==> rc == -2 && clt.disconnected && clt.wire == old(clt.wire)
    ensures !old(clt.disconnected) && old(frame.replyDone) ==>
              rc == 0 && clt.wire == old(clt.wire) && !clt.disconnected && frame.replyDone
    ensures !old(clt.disconnected) && !old(frame.replyDone) ==>
              && (rc == 0 <==> EndAt(old(clt.sendPlan), 0) == Passes) && (frame.replyDone <==> rc == 0)
              && (clt.disconnected <==> EndAt(old(clt.sendPlan), 0).Breaks? || EndAt(old(clt.sendPlan), 0).PassesPart?)
              && clt.wire == old(clt.wire) + if rc == 0 then [StatusReply(ret)]
                                             else if EndAt(old(clt.sendPlan), 0).PassesPart? then [PartOfReply(ret)]
                                             else []
  {
    if clt.disconnected { return -2; }
    if frame.replyDone { return 0; }
    var end := clt.SendReply(ret);
    if end == Passes {
      frame.replyDone := true;
      return 0;
    }
    if end.Breaks? || end.PassesPart? { clt.ProcessDisconnect(); }
    rc := -1;
  }

  /** Sends the reply that settles a call of which the client has seen nothing. */
  method ReplyStatus(frame: Frame, clt: Client, ret: int) returns (ghost o: Outcome)
    requires !clt.disconnected && !frame.replyDone
    modifies frame`replyDone, clt`wire, clt`sendPlan, clt`disconnected
    ensures o == OutcomeOf(EndAt(old(clt.sendPlan), 0), ret)
    ensures Left(o, [], [], old(clt.wire), clt.wire, clt.disconnected)
    ensures frame.replyDone <==> o.Replied?
  {
    ghost var end := EndAt(clt.sendPlan, 0);
    var rc := SendMessageAndReturnStatusToClient(frame, clt, ret);
    o := OutcomeOf(end, ret);
    assert RelayedOf([]) == [];
  }

  /** The status that the frame has after the loop l. */
  function StatusLeft(l: Loop, fast: bool): int {
    if l.eot && l.chunks != [] then StatusIn(Window(l.chunks))
    else if fast || l.m > 0 then DS_FAIL_CANNOT_RETRY else DS_RPC_TIMEOUT
  }

  /** Where the loop l leaves the client: with the response, when all of it came and the client took it; cut off
      after a part of it, when a send to it failed or the response did; or with a reply, when it was sent nothing
      before. */
  ghost predicate Leaves(l: Loop, o: Outcome, plan0: seq<ClientSend>, fast: bool) {
    && (l.cltErr <==> l.m < |l.chunks|) && (l.cltErr ==> !Passed(EndAt(plan0, l.m)))
    && if l.eot && !l.cltErr then l.m == |l.chunks| && o == if Parts(l.chunks, plan0) == l.chunks then Whole else Gapped
       else if l.eot || l.m > 0 then o == Cut
       else o == OutcomeOf(EndAt(plan0, if l.cltErr then 1 else 0), StatusLeft(l, fast))
  }

  lemma PlanAfter(plan0: seq<ClientSend>, plan: seq<ClientSend>, l: Loop)
    requires PlanSide(plan0, plan, l.m, l.cltErr)
    ensures l.m == 0 ==> EndAt(plan, 0) == EndAt(plan0, if l.cltErr then 1 else 0)
    ensures l.m == 0 && !l.cltErr ==> plan == plan0
  {}

  /** Every send to the client passes. */
  predicate AllPass(plan: seq<ClientSend>) { forall i :: 0 <= i < |plan| ==> plan[i] == Passes }

  /** The case table of receiveResponse(), for what the loop l has left on the wire; fast tells that
      less than three seconds have passed. Cases 1 to 5 of the source, in its order. */
  method SettleResponse(dest: DestConn, clt: Client, frame: Frame, l: Loop, fast: bool, ghost w0: seq<WireItem>,
                        ghost plan0: seq<ClientSend>)
    returns (rc: int, ghost o: Outcome)
    requires !clt.disconnected && !frame.replyDone && LoopOk(l, w0, clt.wire, plan0) && (l.eot <==> !l.destErr)
    requires PlanSide(plan0, clt.sendPlan, l.m, l.cltErr)
    modifies dest`dirty, dest`ready, clt`wire, clt`sendPlan, clt`disconnected, frame`replyDone, frame`returnStatus
    ensures rc in {0, 1} && (rc == 1 <==> clt.disconnected)
    ensures Left(o, l.chunks, Parts(l.chunks[..l.m], plan0), w0, clt.wire, clt.disconnected)
    ensures Leaves(l, o, plan0, fast) && frame.returnStatus == StatusLeft(l, fast)
    ensures o != Cut ==> (frame.replyDone <==> o.Replied?)
    ensures if l.eot && !l.cltErr then dest.dirty == old(dest.dirty) && dest.ready == old(dest.ready)
            else if l.eot then dest.dirty && !dest.ready
            else old(!dest.ready) ==> !dest.ready
  {
    o := Cut;
    var mustDisconnect := false;
    var sendRetStat := false;
    var retStat := l.retStat;
    if !l.destErr {
      if l.cltErr {
        mustDisconnect := true;
        dest.AssignDirty();
      } else {
        o := if Parts(l.chunks, plan0) == l.chunks then Whole else Gapped;
      }
    } else if l.sentCtr >= 1 {
      mustDisconnect := true;
      retStat := DS_FAIL_CANNOT_RETRY;
      dest.AssignDirty();
    } else {
      sendRetStat := true;
      if fast {
        retStat := DS_FAIL_CANNOT_RETRY;
      } else {
        retStat := DS_RPC_TIMEOUT;
        dest.AssignDirty();
      }
    }
    assert l.chunks[..|l.chunks|] == l.chunks;
    PlanAfter(plan0, clt.sendPlan, l);
    frame.returnStatus := retStat;
    if sendRetStat {
      assert l.chunks[..l.m] == [] && Parts([], plan0) == [] && w0 + RelayedOf([]) == w0;
      o := ReplyStatus(frame, clt, retStat);
    }
    if mustDisconnect {
      clt.ProcessDisconnect();
      return 1, o;
    }
    rc := if clt.disconnected then 1 else 0;
  }

  /** The client gets nothing: it was sent nothing but a reply, and this send, after that of the first chunk
      if there was one, failed without breaking the connection. */
  ghost predicate ReplyLost(l: Loop, plan: seq<ClientSend>) {
    !l.eot && l.m == 0 && EndAt(plan, if l.cltErr then 1 else 0) == Fails
  }

  /** The client is left with one of the outcomes, after the loop l. */
  ghost predicate Ended(l: Loop, o: Outcome, plan0: seq<ClientSend>, w0: seq<WireItem>, w: seq<WireItem>,
                        disconnected: bool) {
    && l.m <= |l.chunks| && Left(o, l.chunks, Parts(l.chunks[..l.m], plan0), w0, w, disconnected)
    && (o.Silent? <==> ReplyLost(l, plan0))
  }

  /** Nothing was received, and a reply was sent. */
  lemma EndedByReply(o: Outcome, plan0: seq<ClientSend>, ret: int, w0: seq<WireItem>, w: seq<WireItem>,
                     disconnected: bool)
    requires o == OutcomeOf(EndAt(plan0, 0), ret) && Left(o, [], [], w0, w, disconnected)
    ensures Ended(BEGIN, o, plan0, w0, w, disconnected)
  {
    assert Parts(BEGIN.chunks[..0], plan0) == [];
  }

  /** What a call that received something, or tried to, leaves: as much of the answers as there was of a response,
      the outcome, and the status of the frame. */
  ghost predicate Settles(ev: seq<RecvEvent>, rest: seq<RecvEvent>, l: Loop, o: Outcome, ret: int,
                          plan0: seq<ClientSend>, fast: bool) {
    ReadTo(ev, rest, l) && Leaves(l, o, plan0, fast) && ret == StatusLeft(l, fast)
  }

  /** The destination closes before it answers anything, and can be connected to again. */
  ghost predicate Reconnects(ev: seq<RecvEvent>, resets: seq<Option<seq<RecvEvent>>>) {
    ClosedFirst(ev) && CanReset(resets)
  }

  /** receiveResponse() of the RPC monitor: -1 is that the connection was made again. The destination is not used
      again if it was made again, or not all of its response was taken. */
  method ReceiveResponse(dest: DestConn, clt: Client, frame: Frame, retryCtr: nat, fast: bool)
    returns (rc: int, l: Loop, ghost o: Outcome)
    requires !clt.disconnected && !frame.replyDone
    modifies dest`events, dest`resets, dest`dirty, dest`ready,
             clt`wire, clt`sendPlan, clt`disconnected, frame
    ensures rc == -1 <==> retryCtr == 0 && Reconnects(old(dest.events), old(dest.resets))
    ensures rc == -1 ==> clt.wire == old(clt.wire) && clt.sendPlan == old(clt.sendPlan) && !clt.disconnected
    ensures rc == -1 ==> !frame.replyDone && frame.returnStatus == old(frame.returnStatus)
    ensures rc == -1 ==> frame.diagnosed == old(frame.diagnosed) && old(dest.resets)[0] == Some(dest.events)
    ensures rc != -1 ==> Settles(old(dest.events), dest.events, l, o, frame.returnStatus, old(clt.sendPlan), fast)
    ensures rc != -1 ==> Ended(l, o, old(clt.sendPlan), old(clt.wire), clt.wire, clt.disconnected)
    ensures rc != -1 ==> (rc == if clt.disconnected then 1 else 0) && (o != Cut ==> (frame.replyDone <==> o.Replied?))
    ensures rc == -1 ==> !dest.dirty && dest.ready
    ensures rc != -1 && l.eot ==>
              dest.dirty == (old(dest.dirty) || l.cltErr) && dest.ready == (old(dest.ready) && !l.cltErr)
    ensures rc != -1 && !l.eot ==> !dest.ready
  {
    var r;
    ghost var plan0 := clt.sendPlan;
    r, l := RecvResp(dest, clt, retryCtr);
    PlanAfter(plan0, clt.sendPlan, l);
    o := Cut;
    if r.ConnReset? {
      assert clt.wire == old(clt.wire);
      return -1, l, o;
    }
    rc, o := SettleResponse(dest, clt, frame, l, fast, old(clt.wire), plan0);
  }

  datatype CallEnd = Done(clientGone: bool) | Raised

  /** What the clock says during one call: the wait in the queue was too long; too little time is
      left after a reset; less than three seconds have passed, in each attempt. */
  datatype Clock = Clock(waitedTooLong: bool, noTimeToRetry: bool, fast0: bool, fast1: bool)

  /** What the destination answers to the first sending of the call, and to the second, which follows a
      reset of the connection. */
  function FirstAnswers(plan: seq<CallSend>, events: seq<RecvEvent>): seq<RecvEvent> {
    AnswersAfter(NextSend(plan), events)
  }

  function SecondAnswers(plan: seq<CallSend>, events: seq<RecvEvent>): seq<RecvEvent> {
    AnswersAfter(NextSend(LaterSends(plan)), events)
  }

  function LaterSends(plan: seq<CallSend>): seq<CallSend> { if plan == [] then [] else plan[1..] }

  /** The client and the frame are as they were. */
  twostate predicate Untouched(clt: Client, frame: Frame)
    reads clt, frame
  {
    clt.wire == old(clt.wire) && clt.sendPlan == old(clt.sendPlan) && !clt.disconnected && !frame.replyDone
  }

  /** The client is left with one of the outcomes. */
  twostate predicate IsLeft(clt: Client, frame: Frame, l: Loop, o: Outcome)
    reads clt, frame
  {
    && Ended(l, o, old(clt.sendPlan), old(clt.wire), clt.wire, clt.disconnected)
    && (!clt.disconnected ==> (frame.replyDone <==> o.Replied?))
  }

  /** What every end of the sending and receiving of a call leaves. */
  twostate predicate EndsWell(clt: Client, frame: Frame, e: CallEnd, l: Loop, o: Outcome)
    reads clt, frame
  {
    match e
    case Raised => Untouched(clt, frame)
    case Done(clientGone) => IsLeft(clt, frame, l, o) && clientGone == clt.disconnected
  }

  /** The call was not sent, or not again, for lack of time; nothing was received. */
  predicate ToldTooLate(e: CallEnd, l: Loop, o: Outcome, plan0: seq<ClientSend>) {
    e.Done? && l == BEGIN && o == OutcomeOf(EndAt(plan0, 0), DS_RPC_TIMEOUT)
  }

  /** One attempt: the call is sent, if it can be, and its response received; or the connection is made again. */
  method SendAndReceive(dest: DestConn, clt: Client, frame: Frame, retryCtr: nat, fast: bool)
    returns (sent: bool, again: bool, l: Loop, ghost o: Outcome)
    requires !clt.disconnected && !frame.replyDone && !frame.diagnosed
    modifies dest, clt`wire, clt`sendPlan, clt`disconnected, frame
    ensures dest.releases == old(dest.releases) && dest.callsSent == old(dest.callsSent) + (if sent then 1 else 0)
    ensures sent == Sends(NextSend(old(dest.sendPlan))) && dest.sendPlan == LaterSends(old(dest.sendPlan))
    ensures again <==>
            sent && retryCtr == 0 && Reconnects(FirstAnswers(old(dest.sendPlan), old(dest.events)), old(dest.resets))
    ensures !sent || again ==> Untouched(clt, frame)
    ensures !sent ==> frame.returnStatus == StatusAfterSend(NextSend(old(dest.sendPlan)), old(frame.returnStatus))
    ensures !sent ==> l == BEGIN
    ensures again ==> frame.returnStatus == old(frame.returnStatus) && !frame.diagnosed
    ensures again ==> old(dest.resets)[0] == Some(dest.events) && dest.ready && !dest.dirty
    ensures sent && !again ==>
              && Settles(FirstAnswers(old(dest.sendPlan), old(dest.events)), dest.events, l, o, frame.returnStatus,
                         old(clt.sendPlan), fast)
              && IsLeft(clt, frame, l, o)
              && (old(dest.ready && !dest.dirty) && l.eot ==> dest.dirty == l.cltErr && dest.ready == !l.cltErr)
  {
    l := BEGIN;
    o := Cut;
    sent := dest.SendProcCall(frame);
    if !sent { return false, false, l, o; }
    var rc;
    rc, l, o := ReceiveResponse(dest, clt, frame, retryCtr, fast);
    again := rc == -1;
  }

  /** How a call goes: it has waited too long; it cannot be sent; it is sent once; or the destination closes first
      and is connected to again, and then there is no time to send it again, or it cannot be, or it is. */
  datatype Course =
    | TooLate
    | NotSent
    | Once
    | NoTimeLeft
    | NotSentAgain
    | Twice

  ghost function CourseOf(plan: seq<CallSend>, events: seq<RecvEvent>, resets: seq<Option<seq<RecvEvent>>>,
                          clock: Clock): Course {
    if clock.waitedTooLong then TooLate
    else if !Sends(NextSend(plan)) then NotSent
    else if !Reconnects(FirstAnswers(plan, events), resets) then Once
    else if clock.noTimeToRetry then NoTimeLeft
    else if !Sends(NextSend(LaterSends(plan))) then NotSentAgain
    else Twice
  }

  function TimesSent(c: Course): nat {
    match c
    case TooLate => 0
    case NotSent => 0
    case Twice => 2
    case _ => 1
  }

  /** A call is never sent if and only if it waited too long or its first sending fails; it is sent a second time
      if and only if the first attempt was made, the destination closed before it
      answered anything and could be connected to again, there is time, and the call can be sent. */
  lemma TwiceIff(plan: seq<CallSend>, events: seq<RecvEvent>, resets: seq<Option<seq<RecvEvent>>>, clock: Clock)
    ensures TimesSent(CourseOf(plan, events, resets, clock)) == 0 <==> clock.waitedTooLong || !Sends(NextSend(plan))
    ensures TimesSent(CourseOf(plan, events, resets, clock)) == 2
            <==> && !clock.waitedTooLong && Sends(NextSend(plan))
                 && ClosedFirst(FirstAnswers(plan, events)) && CanReset(resets)
                 && !clock.noTimeToRetry && Sends(NextSend(LaterSends(plan)))
  {}

  /** What the client, the frame and the destination are left with in each course. */
  ghost predicate Follows(c: Course, plan: seq<CallSend>, events: seq<RecvEvent>, resets: seq<Option<seq<RecvEvent>>>,
                          clock: Clock, plan0: seq<ClientSend>, ret0: int, e: CallEnd, l: Loop, o: Outcome, ret: int,
                          rest: seq<RecvEvent>) {
    match c
    case TooLate => ToldTooLate(e, l, o, plan0) && ret == ret0
    case NotSent => e.Raised? && l == BEGIN && ret == StatusAfterSend(NextSend(plan), ret0)
    case Once => e.Done? && Settles(FirstAnswers(plan, events), rest, l, o, ret, plan0, clock.fast0)
    case NoTimeLeft => ToldTooLate(e, l, o, plan0) && ret == ret0
    case NotSentAgain => e.Raised? && l == BEGIN && ret == StatusAfterSend(NextSend(LaterSends(plan)), ret0)
    case Twice =>
      CanReset(resets) && e.Done?
      && Settles(SecondAnswers(plan, resets[0].value), rest, l, o, ret, plan0, clock.fast1)
  }

  /** The attempts that are made in time. */
  method SendInTime(dest: DestConn, clt: Client, frame: Frame, clock: Clock)
    returns (e: CallEnd, l: Loop, ghost o: Outcome)
    requires !clt.disconnected && !frame.replyDone && !frame.diagnosed && !clock.waitedTooLong
    modifies dest, clt`wire, clt`sendPlan, clt`disconnected, frame
    ensures dest.releases == old(dest.releases) && EndsWell(clt, frame, e, l, o)
    ensures var c := CourseOf(old(dest.sendPlan), old(dest.events), old(dest.resets), clock);
            && dest.callsSent == old(dest.callsSent) + TimesSent(c)
            && Follows(c, old(dest.sendPlan), old(dest.events), old(dest.resets), clock, old(clt.sendPlan),
                       old(frame.returnStatus), e, l, o, frame.returnStatus, dest.events)
    ensures old(dest.ready && !dest.dirty) && e.Done? && l.eot ==> dest.dirty == l.cltErr && dest.ready == !l.cltErr
  {
    var sent, again;
    ghost var plan0, w0 := clt.sendPlan, clt.wire;
    sent, again, l, o := SendAndReceive(dest, clt, frame, 0, clock.fast0);
    if again {
      if clock.noTimeToRetry {
        l := BEGIN;
        o := ReplyStatus(frame, clt, DS_RPC_TIMEOUT);
        EndedByReply(o, plan0, DS_RPC_TIMEOUT, w0, clt.wire, clt.disconnected);
        return Done(clt.disconnected), l, o;
      }
      sent, again, l, o := SendAndReceive(dest, clt, frame, 1, clock.fast1);
    }
    e := if sent then Done(clt.disconnected) else Raised;
  }

  /** sendRPCcallAndReceiveResponse(): at most two attempts, the second one if and only if the destination closed
      before it answered anything, could be connected to again, and there is time. */
  method SendRpcCallAndReceiveResponse(dest: DestConn, clt: Client, frame: Frame, clock: Clock)
    returns (e: CallEnd, l: Loop, ghost o: Outcome)
    requires !clt.disconnected && !frame.replyDone && !frame.diagnosed
    modifies dest, clt`wire, clt`sendPlan, clt`disconnected, frame
    ensures dest.releases == old(dest.releases) && EndsWell(clt, frame, e, l, o)
    ensures var c := CourseOf(old(dest.sendPlan), old(dest.events), old(dest.resets), clock);
            && dest.callsSent == old(dest.callsSent) + TimesSent(c)
            && Follows(c, old(dest.sendPlan), old(dest.events), old(dest.resets), clock, old(clt.sendPlan),
                       old(frame.returnStatus), e, l, o, frame.returnStatus, dest.events)
    ensures old(dest.ready && !dest.dirty) && e.Done? && l.eot ==> dest.dirty == l.cltErr && dest.ready == !l.cltErr
  {
    ghost var plan0, w0 := clt.sendPlan, clt.wire;
    if clock.waitedTooLong {
      l := BEGIN;
      o := ReplyStatus(frame, clt, DS_RPC_TIMEOUT);
      EndedByReply(o, plan0, DS_RPC_TIMEOUT, w0, clt.wire, clt.disconnected);
      return Done(clt.disconnected), l, o;
    }
    e, l, o := SendInTime(dest, clt, frame, clock);
  }

  /** recoverRPCexecError(): the reply that stands for a call that raised an exception. */
  method RecoverRpcExecError(clt: Client, frame: Frame) returns (ghost o: Outcome)
    requires !clt.disconnected && !frame.replyDone
    modifies clt, frame`replyDone
    ensures Left(o, [], [], old(clt.wire), clt.wire, clt.disconnected)
    ensures o == OutcomeOf(EndAt(old(clt.sendPlan), 0), if frame.returnStatus == INIT_NOT_ASSIGNED_YET
                                                        then DS_FAIL_CANNOT_RETRY else frame.returnStatus)
    ensures clt.returns_ == old(clt.returns_) + (if clt.disconnected then 0 else 1)
  {
    var ret := frame.returnStatus;
    if ret == INIT_NOT_ASSIGNED_YET { ret := DS_FAIL_CANNOT_RETRY; }
    o := ReplyStatus(frame, clt, ret);
    clt.RpcEndedReturnConnToPollList();
  }

  /** What is found before the call is sent. */
  datatype Start = Ready | BadParams | NoDestination

  /** What a client is told of a call that could not be sent. */
  function ToldOf(c: CallSend): int {
    var ret := StatusAfterSend(c, INIT_NOT_ASSIGNED_YET);
    if ret == INIT_NOT_ASSIGNED_YET then DS_FAIL_CANNOT_RETRY else ret
  }

  /** What the client is left with in each course, at the end of the thread: the reply that stands for a call that
      could not be sent has the status of that, as ToldOf() says. */
  ghost predicate RunFollows(c: Course, plan: seq<CallSend>, events: seq<RecvEvent>,
                             resets: seq<Option<seq<RecvEvent>>>, clock: Clock, plan0: seq<ClientSend>, l: Loop,
                             o: Outcome, ret: int, rest: seq<RecvEvent>) {
    match c
    case TooLate => l == BEGIN && o == OutcomeOf(EndAt(plan0, 0), DS_RPC_TIMEOUT) && ret == INIT_NOT_ASSIGNED_YET
    case NotSent =>
      && l == BEGIN && o == OutcomeOf(EndAt(plan0, 0), ToldOf(NextSend(plan)))
      && ret == StatusAfterSend(NextSend(plan), INIT_NOT_ASSIGNED_YET)
    case Once => Settles(FirstAnswers(plan, events), rest, l, o, ret, plan0, clock.fast0)
    case NoTimeLeft => l == BEGIN && o == OutcomeOf(EndAt(plan0, 0), DS_RPC_TIMEOUT) && ret == INIT_NOT_ASSIGNED_YET
    case NotSentAgain =>
      && l == BEGIN && o == OutcomeOf(EndAt(plan0, 0), ToldOf(NextSend(LaterSends(plan))))
      && ret == StatusAfterSend(NextSend(LaterSends(plan)), INIT_NOT_ASSIGNED_YET)
    case Twice =>
      CanReset(resets) && Settles(SecondAnswers(plan, resets[0].value), rest, l, o, ret, plan0, clock.fast1)
  }

  lemma ToldAfterAnswers(ev: seq<RecvEvent>, rest: seq<RecvEvent>, l: Loop, o: Outcome, ret: int,
                         plan0: seq<ClientSend>, fast: bool)
    requires Settles(ev, rest, l, o, ret, plan0, fast)
    ensures o.Replied? || o.CutReply? || o.Silent? ==> !l.eot && l.m == 0
    ensures o.Replied? || o.CutReply? ==> o.ret == ret
    ensures ret == if l.eot then StatusIn(Window(l.chunks)) else if fast || l.m > 0 then -1105 else -1101
  {}

  /** What a client is told that gets a status reply: of a call that could not be sent, why; of one that waited too
      long, or for whose second sending there is no time, a time-out; of one that was sent, a time-out or, when the
      destination failed within three seconds, that it must not be made again. Nothing of a response was relayed
      to it then. The frame has the status of the response, when a whole one was received. */
  lemma ToldWhy(plan: seq<CallSend>, events: seq<RecvEvent>, resets: seq<Option<seq<RecvEvent>>>, clock: Clock,
                plan0: seq<ClientSend>, l: Loop, o: Outcome, ret: int, rest: seq<RecvEvent>)
    requires RunFollows(CourseOf(plan, events, resets, clock), plan, events, resets, clock, plan0, l, o, ret, rest)
    ensures var c := CourseOf(plan, events, resets, clock);
            var send := NextSend(if c.NotSentAgain? then LaterSends(plan) else plan);
            var fast := if c.Twice? then clock.fast1 else clock.fast0;
            && (o.Replied? || o.CutReply? || o.Silent? ==> !l.eot && l.m == 0)
            && (o.Replied? || o.CutReply? ==>
                  o.ret == if c.TooLate? || c.NoTimeLeft? then -1101
                           else if c.NotSent? || c.NotSentAgain? then
                             if send.NotAvailable? then -1100 else if send.NotValid? then -1160 else -1105
                           else if fast then -1105 else -1101)
            && (c.Once? || c.Twice? ==>
                  ret == if l.eot then StatusIn(Window(l.chunks)) else if fast || l.m > 0 then -1105 else -1101)
  {
    match CourseOf(plan, events, resets, clock)
    case Once => ToldAfterAnswers(FirstAnswers(plan, events), rest, l, o, ret, plan0, clock.fast0);
    case Twice => ToldAfterAnswers(SecondAnswers(plan, resets[0].value), rest, l, o, ret, plan0, clock.fast1);
    case _ =>
  }

  /** The call, and the reply that stands for it when it raised an exception. */
  method CallAndRecover(dest: DestConn, clt: Client, frame: Frame, clock: Clock) returns (l: Loop, ghost o: Outcome)
    requires !clt.disconnected && !frame.replyDone && !frame.diagnosed && frame.returnStatus == INIT_NOT_ASSIGNED_YET
    requires dest.ready && !dest.dirty
    modifies dest, clt, frame
    ensures dest.releases == old(dest.releases)
    ensures clt.returns_ == old(clt.returns_) + (if clt.disconnected then 0 else 1)
    ensures Ended(l, o, old(clt.sendPlan), old(clt.wire), clt.wire, clt.disconnected)
    ensures var c := CourseOf(old(dest.sendPlan), old(dest.events), old(dest.resets), clock);
            && dest.callsSent == old(dest.callsSent) + TimesSent(c)
            && RunFollows(c, old(dest.sendPlan), old(dest.events), old(dest.resets), clock, old(clt.sendPlan), l, o,
                          frame.returnStatus, dest.events)
    ensures l.eot ==> dest.dirty == l.cltErr && dest.ready == !l.cltErr
  {
    var e;
    ghost var plan0, w0 := clt.sendPlan, clt.wire;
    e, l, o := SendRpcCallAndReceiveResponse(dest, clt, frame, clock);
    if e.Raised? {
      ghost var ret := if frame.returnStatus == INIT_NOT_ASSIGNED_YET then DS_FAIL_CANNOT_RETRY else frame.returnStatus;
      o := RecoverRpcExecError(clt, frame);
      EndedByReply(o, plan0, ret, w0, clt.wire, clt.disconnected);
    } else if !e.clientGone {
      clt.RpcEndedReturnConnToPollList();
    }
  }

  /** gxRPCmonitor.runThread(): whatever happens, the client is left with one of the outcomes, goes
      back to the poll list once unless it is disconnected, and the destination is released once. Ready is that
      verifyDestConn() has found or made a connection that is in order. The connection is given back in order if
      and only if a whole response was read from it and passed on, and its status is not that of a failure after
      which the connection is not to be trusted. */
  method RunThread(dest: DestConn, clt: Client, frame: Frame, start: Start, clock: Clock)
    returns (l: Loop, ghost o: Outcome)
    requires !frame.replyDone && frame.returnStatus == INIT_NOT_ASSIGNED_YET && !frame.diagnosed
    modifies dest, clt, frame
    ensures dest.releases == old(dest.releases) + 1
    ensures clt.returns_ == old(clt.returns_) + (if clt.disconnected then 0 else 1)
    ensures old(clt.disconnected) ==>
              && clt.disconnected && clt.wire == old(clt.wire) && dest.callsSent == old(dest.callsSent)
              && dest.dirty == old(dest.dirty) && dest.ready == old(dest.ready)
    ensures !old(clt.disconnected) ==> Ended(l, o, old(clt.sendPlan), old(clt.wire), clt.wire, clt.disconnected)
    ensures !old(clt.disconnected) && start != Ready ==>
              && dest.callsSent == old(dest.callsSent) && l == BEGIN
              && frame.returnStatus == (if start == BadParams then DS_FAIL_CANNOT_RETRY else DS_NOT_AVAIL)
              && o == OutcomeOf(EndAt(old(clt.sendPlan), 0), frame.returnStatus)
    ensures !old(clt.disconnected) && start == Ready ==>
              var c := CourseOf(old(dest.sendPlan), old(dest.events), old(dest.resets), clock);
              && dest.callsSent == old(dest.callsSent) + TimesSent(c)
              && RunFollows(c, old(dest.sendPlan), old(dest.events), old(dest.resets), clock, old(clt.sendPlan), l, o,
                            frame.returnStatus, dest.events)
    ensures !old(clt.disconnected) ==>
              (dest.ready && !dest.dirty
               <==> && start == Ready && l.eot && !l.cltErr
                    && (frame.returnStatus >= 0 || frame.returnStatus in NOT_DIRTY))
    ensures !old(clt.disconnected) ==>
              dest.dirty == if frame.returnStatus >= 0 then l.cltErr else frame.returnStatus !in NOT_DIRTY
  {
    l := BEGIN;
    o := Cut;
    if clt.disconnected {
      dest.releases := dest.releases + 1;
      return;
    }
    ghost var plan0, w0 := clt.sendPlan, clt.wire;
    if start == Ready {
      dest.dirty, dest.ready := false, true;
      l, o := CallAndRecover(dest, clt, frame, clock);
      ReadyAfter(CourseOf(old(dest.sendPlan), old(dest.events), old(dest.resets), clock), old(dest.sendPlan),
                 old(dest.events), old(dest.resets), clock, plan0, l, o, frame.returnStatus, dest.events);
    } else {
      if start == NoDestination { dest.dirty, dest.ready := false, false; }
      frame.AssignReturnStatusAndFinalDiagnosis(if start == BadParams then DS_FAIL_CANNOT_RETRY else DS_NOT_AVAIL);
      o := RecoverRpcExecError(clt, frame);
      EndedByReply(o, plan0, frame.returnStatus, w0, clt.wire, clt.disconnected);
    }
    dest.MarkIfFailedBad(frame.returnStatus);
    dest.releases := dest.releases + 1;
  }

  /** A status that is not that of a failure for the connection comes from a response. */
  lemma ReadyAfter(c: Course, plan: seq<CallSend>, events: seq<RecvEvent>, resets: seq<Option<seq<RecvEvent>>>,
                   clock: Clock, plan0: seq<ClientSend>, l: Loop, o: Outcome, ret: int, rest: seq<RecvEvent>)
    requires RunFollows(c, plan, events, resets, clock, plan0, l, o, ret, rest)
    ensures ret >= 0 || ret in NOT_DIRTY ==> l.eot
  {}

  /** A connection that is given back in order has nothing left on it of the call: what was read from it is one
      whole response, as far as its end mark. */
  lemma NothingLeftOn(c: Course, plan: seq<CallSend>, events: seq<RecvEvent>, resets: seq<Option<seq<RecvEvent>>>,
                      clock: Clock, plan0: seq<ClientSend>, l: Loop, o: Outcome, ret: int, rest: seq<RecvEvent>)
    requires RunFollows(c, plan, events, resets, clock, plan0, l, o, ret, rest) && l.eot
    ensures c.Once? || c.Twice?
    ensures CompleteResponse(l.chunks) && ret == StatusIn(Window(l.chunks))
    ensures Took(if c.Once? then FirstAnswers(plan, events) else SecondAnswers(plan, resets[0].value), rest, l.chunks)
  {}

  /** The answers that a call gets, when it gets any: those to its second sending, when it is sent twice. */
  ghost function AnswersTo(plan: seq<CallSend>, events: seq<RecvEvent>, resets: seq<Option<seq<RecvEvent>>>,
                           clock: Clock): seq<RecvEvent>
  {
    if CourseOf(plan, events, resets, clock) == Twice then SecondAnswers(plan, resets[0].value)
    else FirstAnswers(plan, events)
  }

  /** End to end: when the destination answers with a printed response in any chunks, at once or after its
      connection was made again, and the client takes what it is sent, the client gets these bytes, and
      nothing else, and the frame the status that was printed. */
  method ForwardResponse(dest: DestConn, clt: Client, frame: Frame, clock: Clock, r: Response, ghost cs: seq<string>,
                         ghost n: nat)
    requires !clt.disconnected && !frame.replyDone && frame.returnStatus == INIT_NOT_ASSIGNED_YET && !frame.diagnosed
    requires AllPass(clt.sendPlan) && CourseOf(dest.sendPlan, dest.events, dest.resets, clock) in {Once, Twice}
    requires Printable(r) && |Dec(r.status)| <= 14
    requires IsChunking(cs, PrintResponse(r))
    requires var ev := AnswersTo(dest.sendPlan, dest.events, dest.resets, clock);
             n <= |ev| && DataOf(ev[..n]) == cs && forall i :: 0 <= i < n ==> !Stops(ev[i])
    modifies dest, clt, frame
    ensures clt.wire == old(clt.wire) + RelayedOf(cs) && frame.returnStatus == r.status
    ensures !clt.disconnected && clt.returns_ == old(clt.returns_) + 1
    ensures dest.callsSent == old(dest.callsSent)
                              + (if CourseOf(old(dest.sendPlan), old(dest.events), old(dest.resets), clock) == Twice
                                 then 2 else 1)
    ensures dest.releases == old(dest.releases) + 1
    ensures dest.ready && !dest.dirty <==> r.status >= 0 || r.status in NOT_DIRTY
  {
    ghost var ev := AnswersTo(dest.sendPlan, dest.events, dest.resets, clock);
    ChunksAnswer(r, cs);
    NotClosedFirst(ev, n, cs);
    var l, o := RunThread(dest, clt, frame, Ready, clock);
    ReadsExactly(ev, n, dest.events, l, cs);
    AllRelayed(l, o, old(clt.sendPlan), old(clt.wire), clt.wire, clt.disconnected);
  }

  function BytesOf(w: seq<WireItem>): string {
    if w == [] then "" else BytesOf(w[..|w| - 1]) + if w[|w| - 1].Relayed? then w[|w| - 1].bytes else ""
  }

  lemma {:induction false} BytesRelayed(cs: seq<string>)
    ensures BytesOf(RelayedOf(cs)) == Concat(cs)
  {
    if cs != [] {
      var k := |cs| - 1;
      BytesRelayed(cs[..k]);
      assert RelayedOf(cs)[..k] == RelayedOf(cs[..k]);
      assert cs[..k] + [cs[k]] == cs;
    }
  }

  /** So a client that is sent a printed response, in any chunks, reads in it what the destination has printed. */
  lemma ClientReads(r: Response, cs: seq<string>)
    requires Printable(r) && IsChunking(cs, PrintResponse(r))
    ensures ReadResponse(BytesOf(RelayedOf(cs))).Some? && Agrees(r, ReadResponse(BytesOf(RelayedOf(cs))).value)
  {
    BytesRelayed(cs);
    ReadsBack(r);
  }

  lemma AllRelayed(l: Loop, o: Outcome, plan0: seq<ClientSend>, w0: seq<WireItem>, w: seq<WireItem>,
                   disconnected: bool)
    requires AllPass(plan0) && l.eot && (l.cltErr ==> !Passed(EndAt(plan0, l.m)))
    requires o == (if Parts(l.chunks, plan0) == l.chunks then Whole else Gapped) || l.cltErr
    requires Ended(l, o, plan0, w0, w, disconnected)
    ensures w == w0 + RelayedOf(l.chunks) && !disconnected && !l.cltErr
  {
    assert Parts(l.chunks, plan0) == l.chunks;
  }

  /** A client that stays connected after the whole response was received lacks something of it if and only if
      a send passed less than its chunk: that is only logged. */
  lemma GappedIff(l: Loop, o: Outcome, plan0: seq<ClientSend>, w0: seq<WireItem>, w: seq<WireItem>,
                  disconnected: bool)
    requires Ended(l, o, plan0, w0, w, disconnected) && (o.Whole? || o.Gapped?) && l.m == |l.chunks|
    ensures o.Gapped? <==> exists i :: 0 <= i < |l.chunks| && PartOf(l.chunks[i], EndAt(plan0, i)) != l.chunks[i]
  {
    var parts := Parts(l.chunks, plan0);
    assert l.chunks[..l.m] == l.chunks;
    if o.Gapped? {
      var i :| 0 <= i < |parts| && parts[i] != l.chunks[i];
      assert PartOf(l.chunks[i], EndAt(plan0, i)) != l.chunks[i];
    } else {
      assert forall i :: 0 <= i < |parts| ==> parts[i] == PartOf(l.chunks[i], EndAt(plan0, i));
    }
  }

  lemma ChunksAnswer(r: Response, cs: seq<string>)
    requires Printable(r) && |Dec(r.status)| <= 14
    requires IsChunking(cs, PrintResponse(r))
    ensures CompleteResponse(cs) && StatusIn(Window(cs)) == r.status
  {
    var s, tail := PrintResponse(r), StatusTail(r.status);
    PrintedReadsAs(r);
    TailLength(r.status);
    StatusAfterTag(r.status);
    ReadBack(s, tail, cs);
    forall k | 0 <= k < |cs| ensures !Contains(Concat(cs[..k]), EOT_TAG) {
      NoEarlyEot(s, cs, k);
    }
    EotDetected(cs) by { NoEarlyEot(s, cs, |cs| - 1); }
  }
}
