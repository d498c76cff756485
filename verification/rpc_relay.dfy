/** Forwarding one RPC: receive the response in chunks, relay each chunk, and settle the call. */
module RpcRelay {
  import opened Strings
  import opened XmltpTokens
  import opened RespReader

  const DS_RPC_TIMEOUT := -1101
  const DS_FAIL_CANNOT_RETRY := -1105
  const DS_NOT_AVAIL := -1100
  const INIT_NOT_ASSIGNED_YET := -998
  const PARSE_ERROR_CANNOT_GET_PARAMS := -1160

  /** What one turn of the receive loop meets: the time check that fails, or an answer of recv().
      Data("") is the end of the stream. */
  datatype RecvEvent = Data(bytes: string) | RecvTimeout | RecvFailed | TimeExhausted

  /** How a send to the client ends: all is passed, or a part, of one byte at least; or it fails, because the
      connection is broken or for another reason. */
  datatype ClientSend = Passes | PassesPart(bytes: nat) | Breaks | Fails

  predicate Passed(e: ClientSend) { e.Passes? || e.PassesPart? }

  /** What is passed of c by a send that does not fail. */
  function PartOf(c: string, e: ClientSend): string {
    if e.PassesPart? && |c| > 1 && e.bytes < |c| then c[..if e.bytes == 0 then 1 else e.bytes] else c
  }

  /** What is passed of the chunks, each by one send. */
  function Parts(cs: seq<string>, plan: seq<ClientSend>): seq<string> {
    seq(|cs|, i requires 0 <= i < |cs| => PartOf(cs[i], EndAt(plan, i)))
  }

  lemma PartsPush(cs: seq<string>, c: string, plan: seq<ClientSend>)
    ensures Parts(cs + [c], plan) == Parts(cs, plan) + [PartOf(c, EndAt(plan, |cs|))]
  {}

  /** The k-th send from now on; those after the last one foreseen pass. */
  function EndAt(plan: seq<ClientSend>, k: nat): ClientSend { if k < |plan| then plan[k] else Passes }

  function Rest(plan: seq<ClientSend>, k: nat): seq<ClientSend> { if k <= |plan| then plan[k..] else [] }

  lemma RestOfRest(plan: seq<ClientSend>, k: nat)
    ensures Rest(Rest(plan, k), 1) == Rest(plan, k + 1) && EndAt(Rest(plan, k), 0) == EndAt(plan, k)
  {}

  /** The bytes the client gets for one call: relayed chunks and generated status replies. */
  datatype WireItem = Relayed(bytes: string) | StatusReply(ret: int) | PartOfReply(ret: int)

  predicate Stops(e: RecvEvent) {
    e.RecvFailed? || e.TimeExhausted? || (e.Data? && e.bytes == "")
  }

  function DataOf(es: seq<RecvEvent>): seq<string> {
    if es == [] then []
    else
      var e := es[|es| - 1];
      DataOf(es[..|es| - 1]) + DataIn(e)
  }

  function RelayedOf(cs: seq<string>): seq<WireItem> {
    seq(|cs|, i requires 0 <= i < |cs| => Relayed(cs[i]))
  }

  /** No prefix shorter than cs holds the end mark. */
  ghost predicate NoEarlierEot(cs: seq<string>) {
    forall k :: 0 <= k < |cs| ==> !Contains(Concat(cs[..k]), EOT_TAG)
  }

  /** cs is one response up to the chunk that completes the end mark. */
  ghost predicate CompleteResponse(cs: seq<string>) {
    cs != [] && Contains(Concat(cs), EOT_TAG) && NoEarlierEot(cs)
  }

  /** How the sending of a call ends: it passes, on the socket at hand or on that of a reset of the
      connection; the connection cannot be reset; the call is not valid; or it fails otherwise, with the
      connection in order or not. */
  datatype CallSend =
    | Goes
    | GoesAfterReset(events: seq<RecvEvent>)
    | NotAvailable
    | NotValid
    | SendFails(ready: bool)

  function NextSend(plan: seq<CallSend>): CallSend { if plan == [] then Goes else plan[0] }

  predicate Sends(c: CallSend) { c.Goes? || c.GoesAfterReset? }

  /** What the destination answers, on the socket in use after the send. */
  function AnswersAfter(c: CallSend, events: seq<RecvEvent>): seq<RecvEvent> {
    if c.GoesAfterReset? then c.events else events
  }

  /** The status that a frame without final diagnosis has after the send. */
  function StatusAfterSend(c: CallSend, before: int): int {
    match c
    case NotAvailable => DS_NOT_AVAIL
    case NotValid => PARSE_ERROR_CANNOT_GET_PARAMS
    case _ => before
  }

  /** The connection can be made again: these are the answers on its new socket, if so. */
  predicate CanReset(resets: seq<Option<seq<RecvEvent>>>) { resets != [] && resets[0].Some? }

  class Frame {
    var replyDone: bool
    var returnStatus: int
    var diagnosed: bool      // it has a final diagnosis

    constructor ()
      ensures !replyDone && returnStatus == INIT_NOT_ASSIGNED_YET && !diagnosed
    {
      replyDone, returnStatus, diagnosed := false, INIT_NOT_ASSIGNED_YET, false;
    }

    method AssignReturnStatusAndFinalDiagnosis(ret: int)
      modifies this`returnStatus, this`diagnosed
      ensures diagnosed && returnStatus == if old(diagnosed) then old(returnStatus) else ret
    {
      if diagnosed { return; }
      diagnosed := true;
      returnStatus := ret;
    }
  }

  /** The statuses of a failed call after which the connection is as good as before: GATE_CLOSED, NAME_BLOCKED
      and GW_QUE_SIZE. */
  const NOT_DIRTY := {-1150, -1151, -1202}

  /** A connection to a destination: the answers its socket will give, the outcomes of sending
      a call on it, and the sockets it will get when it is reset. It is ready when it has a socket and is
      logged in; one that is dirty is reset before it is used again. */
  class DestConn {
    var events: seq<RecvEvent>
    var sendPlan: seq<CallSend>
    var resets: seq<Option<seq<RecvEvent>>>
    var callsSent: nat
    var dirty: bool
    var ready: bool
    var releases: nat

    constructor (events: seq<RecvEvent>, sendPlan: seq<CallSend>, resets: seq<Option<seq<RecvEvent>>>)
      ensures this.events == events && this.sendPlan == sendPlan && this.resets == resets
      ensures callsSent == 0 && !dirty && ready && releases == 0
    {
      this.events, this.sendPlan, this.resets := events, sendPlan, resets;
      callsSent, dirty, ready, releases := 0, false, true, 0;
    }

    /** assignOutcomeOfUse(b_dirty=1), which closes the socket */
    method AssignDirty()
      modifies this`dirty, this`ready
      ensures dirty && !ready
    {
      dirty, ready := true, false;
    }

    /** markDestConnDirtyIfRPCfailedBad() */
    method MarkIfFailedBad(ret: int)
      modifies this`dirty, this`ready
      ensures ret >= 0 ==> dirty == old(dirty) && ready == old(ready)
      ensures ret in {-1150, -1151, -1202} ==> !dirty && ready == old(ready)
      ensures ret < 0 && ret !in {-1150, -1151, -1202} ==> dirty && !ready
    {
      if ret >= 0 { return; }
      if ret == -1150 || ret == -1151 || ret == -1202 { dirty := false; } else { AssignDirty(); }
    }

    /** The loop waits until its time is exhausted when nothing else ever comes. */
    method Recv() returns (e: RecvEvent)
      modifies this`events
      ensures if old(events) == [] then e == TimeExhausted && events == []
              else e == old(events)[0] && events == old(events)[1..]
    {
      if events == [] { return TimeExhausted; }
      e := events[0];
      events := events[1..];
    }

    /** sendProcCall(), with the reset of the connection that it may make. */
    method SendProcCall(frame: Frame) returns (ok: bool)
      modifies this`events, this`sendPlan, this`callsSent, this`dirty, this`ready, frame`returnStatus, frame`diagnosed
      ensures NextSend(old(sendPlan)).Goes? ==> dirty == old(dirty) && ready == old(ready)
      ensures NextSend(old(sendPlan)).GoesAfterReset? ==> !dirty && ready
      ensures ok == Sends(NextSend(old(sendPlan))) && callsSent == old(callsSent) + (if ok then 1 else 0)
      ensures events == AnswersAfter(NextSend(old(sendPlan)), old(events))
      ensures sendPlan == if old(sendPlan) == [] then [] else old(sendPlan)[1..]
      ensures ok ==> frame.returnStatus == old(frame.returnStatus) && frame.diagnosed == old(frame.diagnosed)
      ensures !old(frame.diagnosed) ==>
                frame.returnStatus == StatusAfterSend(NextSend(old(sendPlan)), old(frame.returnStatus))
    {
      var send := NextSend(sendPlan);
      if sendPlan != [] { sendPlan := sendPlan[1..]; }
      ok := Sends(send);
      if ok { callsSent := callsSent + 1; }
      match send
      case Goes =>
      case GoesAfterReset(answers) => events, dirty, ready := answers, false, true;
      case NotAvailable =>
        dirty, ready := false, false;
        frame.AssignReturnStatusAndFinalDiagnosis(DS_NOT_AVAIL);
      case NotValid => frame.AssignReturnStatusAndFinalDiagnosis(PARSE_ERROR_CANNOT_GET_PARAMS);
      case SendFails(r) => ready := r;
    }

    /** verifyDestConn(1): close, reconnect, log in again. */
    method Reset() returns (ok: bool)
      modifies this`events, this`resets, this`dirty, this`ready
      ensures ok == CanReset(old(resets)) && !dirty && ready == ok
      ensures events == if ok then old(resets)[0].value else old(events)
      ensures resets == if old(resets) == [] then [] else old(resets)[1..]
    {
      ok := CanReset(resets);
      if ok { events := resets[0].value; }
      dirty, ready := false, ok;
      if resets != [] { resets := resets[1..]; }
    }
  }

  /** The client side of a call. */
  class Client {
    var wire: seq<WireItem>
    var sendPlan: seq<ClientSend>
    var disconnected: bool
    var returns_: nat        // times the connection was given back to the poll list

    constructor (sendPlan: seq<ClientSend>)
      ensures wire == [] && this.sendPlan == sendPlan && !disconnected && returns_ == 0
    {
      wire, this.sendPlan, disconnected, returns_ := [], sendPlan, false, 0;
    }

    method SendChunk(c: string) returns (end: ClientSend)
      modifies this`wire, this`sendPlan
      ensures wire == if Passed(end) then old(wire) + [Relayed(PartOf(c, end))] else old(wire)
      ensures end == EndAt(old(sendPlan), 0) && sendPlan == Rest(old(sendPlan), 1)
    {
      end := EndAt(sendPlan, 0);
      sendPlan := Rest(sendPlan, 1);
      if Passed(end) { wire := wire + [Relayed(PartOf(c, end))]; }
    }

    method SendReply(ret: int) returns (end: ClientSend)
      modifies this`wire, this`sendPlan
      ensures wire == match end
                      case Passes => old(wire) + [StatusReply(ret)]
                      case PassesPart(_) => old(wire) + [PartOfReply(ret)]
                      case _ => old(wire)
      ensures end == EndAt(old(sendPlan), 0) && sendPlan == Rest(old(sendPlan), 1)
    {
      end := EndAt(sendPlan, 0);
      sendPlan := Rest(sendPlan, 1);
      if end.Passes? { wire := wire + [StatusReply(ret)]; }
      if end.PassesPart? { wire := wire + [PartOfReply(ret)]; }
    }

    method ProcessDisconnect()
      modifies this`disconnected
      ensures disconnected
    {
      disconnected := true;
    }

    method RpcEndedReturnConnToPollList()
      modifies this`returns_
      ensures returns_ == old(returns_) + (if disconnected then 0 else 1)
    {
      if !disconnected { returns_ := returns_ + 1; }
    }
  }

  datatype RecvResult =
    | ConnReset     // -1: the destination connection was reset, the call may be sent again
    | Received(eot: bool, retStat: int, destErr: bool, cltErr: bool, sentCtr: int, recvCtr: int)

  lemma RelayedPush(cs: seq<string>, c: string)
    ensures RelayedOf(cs + [c]) == RelayedOf(cs) + [Relayed(c)]
  {}

  lemma ConcatPush(cs: seq<string>, c: string)
    ensures Concat(cs + [c]) == Concat(cs) + c
    ensures PrevBuff(cs + [c]) == Keep(PrevBuff(cs) + c)
    ensures Window(cs + [c]) == PrevBuff(cs) + c
  {
    assert (cs + [c])[..|cs|] == cs;
  }

  /** Of the events ev0 all but the last ones, rest, were used up, and the data in them is cs. */
  ghost predicate Took(ev0: seq<RecvEvent>, rest: seq<RecvEvent>, cs: seq<string>) {
    && |rest| <= |ev0| && rest == ev0[|ev0| - |rest|..]
    && cs == DataOf(ev0[..|ev0| - |rest|])
  }

  function DataIn(e: RecvEvent): seq<string> {
    if e.Data? && e.bytes != "" then [e.bytes] else []
  }

  lemma TookOne(ev0: seq<RecvEvent>, rest: seq<RecvEvent>, cs: seq<string>)
    requires Took(ev0, rest, cs) && rest != []
    ensures Took(ev0, rest[1..], cs + DataIn(rest[0]))
    ensures DataIn(rest[0]) == [] ==> Took(ev0, rest[1..], cs)
    ensures ev0[|ev0| - |rest|] == rest[0]
  {
    var k := |ev0| - |rest|;
    assert ev0[..k + 1][..k] == ev0[..k];
    assert ev0[..k + 1][k] == rest[0];
    assert DataIn(rest[0]) == [] ==> cs + DataIn(rest[0]) == cs;
  }

  lemma EotPush(cs: seq<string>, c: string)
    requires NoEarlierEot(cs) && !Contains(Concat(cs), EOT_TAG) && c != ""
    ensures NoEarlierEot(cs + [c])
    ensures SeesEot(Window(cs + [c])) <==> Contains(Concat(cs + [c]), EOT_TAG)
  {
    var d := cs + [c];
    assert d[..|cs|] == cs;
    forall k | 0 <= k < |d| ensures !Contains(Concat(d[..k]), EOT_TAG) {
      if k < |cs| { assert d[..k] == cs[..k]; } else { assert d[..k] == cs; }
    }
    EotDetected(d);
  }

  ghost predicate ChunksNonEmpty(cs: seq<string>) { forall i :: 0 <= i < |cs| ==> cs[i] != "" }

  lemma NothingReceived(cs: seq<string>)
    requires ChunksNonEmpty(cs) && |Concat(cs)| == 0
    ensures cs == []
  {}

  /** What the receiving half of the loop knows after the chunks cs. */
  ghost predicate ReadSide(cs: seq<string>, prev: string, eot: bool, retStat: int, recvCtr: int) {
    && NoEarlierEot(cs) && ChunksNonEmpty(cs)
    && prev == PrevBuff(cs) && recvCtr == |Concat(cs)|
    && (eot <==> Contains(Concat(cs), EOT_TAG))
    && (eot ==> cs != [])
    && retStat == (if eot then StatusIn(Window(cs)) else NO_RETURN_STATUS_YET)
  }

  /** What the relaying half knows: of the first m chunks, what the sends passed is on the client's wire. */
  ghost predicate RelaySide(cs: seq<string>, m: nat, w0: seq<WireItem>, w: seq<WireItem>, plan0: seq<ClientSend>,
                            cltErr: bool, sentCtr: int) {
    && m <= |cs| && w == w0 + RelayedOf(Parts(cs[..m], plan0))
    && sentCtr == |Concat(Parts(cs[..m], plan0))| && (cltErr <==> m < |cs|)
    && (sentCtr == 0 <==> m == 0)
  }

  /** The sends of the plan that were used: m of them passed, and the next one failed if cltErr. */
  ghost predicate PlanSide(plan0: seq<ClientSend>, plan: seq<ClientSend>, m: nat, cltErr: bool) {
    && plan == Rest(plan0, if cltErr then m + 1 else m)
    && (forall i :: 0 <= i < m ==> Passed(EndAt(plan0, i)))
    && (cltErr ==> !Passed(EndAt(plan0, m)))
  }

  lemma NothingRead()
    ensures ReadSide([], "", false, NO_RETURN_STATUS_YET, 0)
  {
    assert Find("", EOT_TAG) == -1;
  }

  lemma ReadStep(cs: seq<string>, prev: string, retStat: int, recvCtr: int, c: string)
    requires ReadSide(cs, prev, false, retStat, recvCtr) && c != ""
    ensures var k := CheckEotAndReturnStatus(prev + c);
            ReadSide(cs + [c], Keep(prev + c), k.0, k.1, recvCtr + |c|)
  {
    ConcatPush(cs, c);
    EotPush(cs, c);
  }

  lemma RelaySent(cs: seq<string>, m: nat, w0: seq<WireItem>, w: seq<WireItem>, plan0: seq<ClientSend>, sentCtr: int,
                  c: string)
    requires RelaySide(cs, m, w0, w, plan0, false, sentCtr) && c != ""
    ensures var part := PartOf(c, EndAt(plan0, m));
            RelaySide(cs + [c], m + 1, w0, w + [Relayed(part)], plan0, false, sentCtr + |part|)
  {
    var d, parts, part := cs + [c], Parts(cs, plan0), PartOf(c, EndAt(plan0, m));
    assert cs[..m] == cs && d[..m + 1] == d;
    PartsPush(cs, c, plan0);
    RelayedPush(parts, part);
    ConcatPush(parts, part);
  }

  lemma RelayNotSent(cs: seq<string>, m: nat, w0: seq<WireItem>, w: seq<WireItem>, plan0: seq<ClientSend>,
                     cltErr: bool, sentCtr: int, c: string)
    requires RelaySide(cs, m, w0, w, plan0, cltErr, sentCtr)
    ensures RelaySide(cs + [c], m, w0, w, plan0, true, sentCtr)
  {
    assert (cs + [c])[..m] == cs[..m];
  }

  /** One turn of the receive loop. */
  datatype Turn = TryAgain | Chunk(bytes: string) | Broken | WasReset

  /** The time check, the recv(), and what is done when the peer has closed: then the connection is made again,
      if it may and can be. */
  method RecvTurn(dest: DestConn, mayReset: bool) returns (t: Turn, destErr: bool)
    modifies dest`events, dest`resets, dest`dirty, dest`ready
    ensures old(dest.events) == [] ==> t == Broken && dest.events == []
    ensures old(dest.events) != [] ==>
              t == match old(dest.events)[0]
                   case RecvTimeout => TryAgain
                   case Data(bytes) => if bytes != "" then Chunk(bytes)
                                       else if mayReset && CanReset(old(dest.resets)) then WasReset else Broken
                   case _ => Broken
    ensures old(dest.events) != [] ==>
              dest.events == if t.WasReset? then old(dest.resets)[0].value else old(dest.events)[1..]
    ensures t.TryAgain? || t.Chunk? ==> dest.resets == old(dest.resets)
    ensures dest.ready == (t.WasReset? || (old(dest.ready) && !t.Broken?))
    ensures dest.dirty == if t.WasReset? then false
                          else if t.Broken? then (if old(dest.events) == [] then true
                                                  else match old(dest.events)[0]
                                                       case RecvFailed => old(dest.dirty)
                                                       case Data(_) => !mayReset
                                                       case _ => true)
                          else old(dest.dirty)
    ensures t.Broken? <==> destErr
  {
    if dest.events == [] {
      dest.AssignDirty();
      return Broken, true;
    }
    var e := dest.Recv();
    if e.RecvTimeout? { return TryAgain, false; }
    if e.Data? && e.bytes != "" { return Chunk(e.bytes), false; }
    if e.RecvFailed? {
      dest.ready := false;
      return Broken, true;
    }
    dest.AssignDirty();
    if e.TimeExhausted? { return Broken, true; }
    if mayReset {
      var ok := dest.Reset();
      if ok { return WasReset, false; }
    }
    return Broken, true;
  }

  /** The relaying half of a turn: nothing more is sent once the client has failed. A short send counts as
      many bytes as it passed, and the rest of the chunk is never sent. */
  method RelayChunk(clt: Client, c: string, cltErr: bool, ghost cs: seq<string>, m: nat,
                    ghost w0: seq<WireItem>, ghost plan0: seq<ClientSend>, sentCtr: int)
    returns (err: bool, sent: int, m': nat)
    requires c != "" && RelaySide(cs, m, w0, clt.wire, plan0, cltErr, sentCtr)
    requires PlanSide(plan0, clt.sendPlan, m, cltErr)
    modifies clt`wire, clt`sendPlan
    ensures RelaySide(cs + [c], m', w0, clt.wire, plan0, err, sent) && PlanSide(plan0, clt.sendPlan, m', err)
  {
    var end := Fails;
    ghost var w := clt.wire;
    if !cltErr {
      RestOfRest(plan0, m);
      end := clt.SendChunk(c);
      if Passed(end) {
        RelaySent(cs, m, w0, w, plan0, sentCtr, c);
        return cltErr, sentCtr + |PartOf(c, end)|, m + 1;
      }
    }
    RelayNotSent(cs, m, w0, w, plan0, cltErr, sentCtr, c);
    return true, sentCtr, m;
  }

  /** The local variables of the loop, with the chunks received and how many were relayed. */
  datatype Loop = Loop(prev: string, retStat: int, eot: bool, destErr: bool, cltErr: bool, sentCtr: int, recvCtr: int,
                       chunks: seq<string>, m: nat)

  const BEGIN := Loop("", NO_RETURN_STATUS_YET, false, false, false, 0, 0, [], 0)

  ghost predicate LoopOk(l: Loop, w0: seq<WireItem>, w: seq<WireItem>, plan0: seq<ClientSend>) {
    && ReadSide(l.chunks, l.prev, l.eot, l.retStat, l.recvCtr)
    && RelaySide(l.chunks, l.m, w0, w, plan0, l.cltErr, l.sentCtr)
  }

  method TakeChunk(clt: Client, l: Loop, c: string, ghost w0: seq<WireItem>, ghost plan0: seq<ClientSend>)
    returns (l': Loop)
    requires c != "" && LoopOk(l, w0, clt.wire, plan0) && !l.eot && PlanSide(plan0, clt.sendPlan, l.m, l.cltErr)
    modifies clt`wire, clt`sendPlan
    ensures LoopOk(l', w0, clt.wire, plan0) && l'.chunks == l.chunks + [c] && l'.destErr == l.destErr
    ensures PlanSide(plan0, clt.sendPlan, l'.m, l'.cltErr)
  {
    ReadStep(l.chunks, l.prev, l.retStat, l.recvCtr, c);
    var str := l.prev + c;
    var check := CheckEotAndReturnStatus(str);
    var cltErr, sentCtr, m := RelayChunk(clt, c, l.cltErr, l.chunks, l.m, w0, plan0, l.sentCtr);
    l' := Loop(Keep(str), check.1, check.0, l.destErr, cltErr, sentCtr, l.recvCtr + |c|, l.chunks + [c], m);
  }

  /** Nothing more would come, or the last event used up was an error. */
  ghost predicate EndedBadly(ev0: seq<RecvEvent>, rest: seq<RecvEvent>) {
    rest == [] || (|rest| < |ev0| && Stops(ev0[|ev0| - |rest| - 1]))
  }

  /** The destination closes before it answers anything: the first answer that is not a receive timeout is the
      end of the stream. */
  ghost predicate ClosedFirst(ev: seq<RecvEvent>) {
    exists k :: 0 <= k < |ev| && ev[k] == Data("") && forall i :: 0 <= i < k ==> ev[i] == RecvTimeout
  }

  /** None of the events used up has ended the loop. */
  ghost predicate NoneStops(ev0: seq<RecvEvent>, rest: seq<RecvEvent>)
    requires |rest| <= |ev0|
  {
    forall i :: 0 <= i < |ev0| - |rest| ==> !Stops(ev0[i])
  }

  lemma {:induction false} OnlyTimeouts(ev: seq<RecvEvent>, k: nat)
    requires k <= |ev| && DataOf(ev[..k]) == [] && forall i :: 0 <= i < k ==> !Stops(ev[i])
    ensures forall i :: 0 <= i < k ==> ev[i] == RecvTimeout
  {
    if k > 0 {
      assert ev[..k][..k - 1] == ev[..k - 1];
      OnlyTimeouts(ev, k - 1);
    }
  }

  lemma {:induction false} TimeoutsOnly(ev: seq<RecvEvent>, k: nat)
    requires k <= |ev| && forall i :: 0 <= i < k ==> ev[i] == RecvTimeout
    ensures DataOf(ev[..k]) == []
  {
    if k > 0 {
      assert ev[..k][..k - 1] == ev[..k - 1];
      TimeoutsOnly(ev, k - 1);
    }
  }

  /** When the destination closes first, nothing has come as long as the loop goes on, and the next answer is
      the end of the stream, or a receive timeout before it. */
  lemma ClosesNext(ev0: seq<RecvEvent>, rest: seq<RecvEvent>, cs: seq<string>)
    requires ClosedFirst(ev0) && Took(ev0, rest, cs) && NoneStops(ev0, rest)
    ensures cs == [] && rest != [] && (rest[0] == Data("") || rest[0] == RecvTimeout)
  {
    var k :| 0 <= k < |ev0| && ev0[k] == Data("") && forall i :: 0 <= i < k ==> ev0[i] == RecvTimeout;
    var used := |ev0| - |rest|;
    assert k >= used;
    TimeoutsOnly(ev0, used);
    assert rest[0] == ev0[used];
  }

  /** The data in the first n answers is the chunks of one response, with nothing between them but receive
      timeouts. */
  ghost predicate Answers(ev: seq<RecvEvent>, n: nat, cs: seq<string>) {
    && CompleteResponse(cs) && n <= |ev| && DataOf(ev[..n]) == cs
    && forall i :: 0 <= i < n ==> !Stops(ev[i])
  }

  /** What one attempt read: the data of the events used up, as far as the end mark unless the
      events ended badly. */
  ghost predicate ReadTo(ev0: seq<RecvEvent>, rest: seq<RecvEvent>, l: Loop) {
    && Took(ev0, rest, l.chunks) && NoEarlierEot(l.chunks)
    && (l.eot <==> Contains(Concat(l.chunks), EOT_TAG))
    && (!l.eot ==> EndedBadly(ev0, rest))
  }

  lemma {:induction false} DataOfGrows(ev: seq<RecvEvent>, j: nat, k: nat)
    requires j <= k <= |ev|
    ensures DataOf(ev[..j]) <= DataOf(ev[..k])
  {
    if j < k {
      DataOfGrows(ev, j, k - 1);
      assert ev[..k][..k - 1] == ev[..k - 1];
    }
  }

  lemma NotClosedFirst(ev: seq<RecvEvent>, n: nat, cs: seq<string>)
    requires Answers(ev, n, cs)
    ensures !ClosedFirst(ev)
  {
    if ClosedFirst(ev) {
      assert ev[n..] == ev[|ev| - (|ev| - n)..];
      ClosesNext(ev, ev[n..], cs);
      assert false;
    }
  }

  lemma NotLong(d: seq<string>, cs: seq<string>)
    requires cs <= d && NoEarlierEot(d) && Contains(Concat(cs), EOT_TAG)
    ensures d == cs
  {
    assert d[..|cs|] == cs;
  }

  /** An attempt that meets the chunks of a whole response takes these, and nothing else. */
  lemma ReadsExactly(ev: seq<RecvEvent>, n: nat, rest: seq<RecvEvent>, l: Loop, cs: seq<string>)
    requires Answers(ev, n, cs) && ReadTo(ev, rest, l)
    ensures l.eot && l.chunks == cs
  {
    var k := |ev| - |rest|;
    if k >= n {
      DataOfGrows(ev, n, k);
      NotLong(l.chunks, cs);
    } else {
      DataOfGrows(ev, k, n);
      assert !EndedBadly(ev, rest);
      NotLong(cs, l.chunks);
    }
  }

  lemma LoopReads(ev0: seq<RecvEvent>, rest: seq<RecvEvent>, l: Loop, w0: seq<WireItem>, w: seq<WireItem>,
                  plan0: seq<ClientSend>)
    requires Took(ev0, rest, l.chunks) && LoopOk(l, w0, w, plan0) && (!l.eot ==> EndedBadly(ev0, rest))
    ensures ReadTo(ev0, rest, l)
  {}

  lemma ClosedNow(ev0: seq<RecvEvent>, rest: seq<RecvEvent>)
    requires Took(ev0, rest, []) && NoneStops(ev0, rest) && rest != [] && rest[0] == Data("")
    ensures ClosedFirst(ev0)
  {
    var used := |ev0| - |rest|;
    assert ev0[used] == Data("");
    OnlyTimeouts(ev0, used);
  }

  /** What the loop has done with the events used up so far. */
  ghost predicate SoFar(ev0: seq<RecvEvent>, rest: seq<RecvEvent>, l: Loop, w0: seq<WireItem>, w: seq<WireItem>,
                        plan0: seq<ClientSend>) {
    Took(ev0, rest, l.chunks) && NoneStops(ev0, rest) && LoopOk(l, w0, w, plan0)
  }

  /** What the next event is to the loop, when it is used up. */
  lemma UsedOne(ev0: seq<RecvEvent>, rest: seq<RecvEvent>, cs: seq<string>)
    requires Took(ev0, rest, cs) && NoneStops(ev0, rest) && rest != []
    ensures Took(ev0, rest[1..], cs + DataIn(rest[0]))
    ensures DataIn(rest[0]) == [] ==> Took(ev0, rest[1..], cs)
    ensures if Stops(rest[0]) then EndedBadly(ev0, rest[1..]) else NoneStops(ev0, rest[1..])
    ensures ClosedFirst(ev0) ==> rest[0] == Data("") || rest[0] == RecvTimeout
  {
    TookOne(ev0, rest, cs);
    if ClosedFirst(ev0) { ClosesNext(ev0, rest, cs); }
  }

  lemma UsedAll(ev0: seq<RecvEvent>, cs: seq<string>)
    requires Took(ev0, [], cs) && NoneStops(ev0, [])
    ensures EndedBadly(ev0, []) && !ClosedFirst(ev0)
  {
    if ClosedFirst(ev0) { ClosesNext(ev0, [], cs); }
  }

  /** One turn of the loop. */
  method TakeTurn(dest: DestConn, clt: Client, l: Loop, mayReset: bool, ghost ev0: seq<RecvEvent>,
                  ghost w0: seq<WireItem>, ghost plan0: seq<ClientSend>)
    returns (t: Turn, l': Loop)
    requires SoFar(ev0, dest.events, l, w0, clt.wire, plan0) && PlanSide(plan0, clt.sendPlan, l.m, l.cltErr)
    requires !l.eot && !l.destErr
    modifies dest`events, dest`resets, dest`dirty, dest`ready, clt`wire, clt`sendPlan
    ensures LoopOk(l', w0, clt.wire, plan0) && PlanSide(plan0, clt.sendPlan, l'.m, l'.cltErr)
    ensures !t.WasReset? ==> Took(ev0, dest.events, l'.chunks)
    ensures t.TryAgain? || t.Chunk? ==>
              && SoFar(ev0, dest.events, l', w0, clt.wire, plan0)
              && dest.resets == old(dest.resets) && |dest.events| < |old(dest.events)|
              && dest.dirty == old(dest.dirty) && dest.ready == old(dest.ready)
    ensures !t.Chunk? ==> l' == l.(destErr := t.Broken?)
    ensures t.Chunk? ==> !l'.destErr
    ensures t.Broken? ==> EndedBadly(ev0, dest.events)
    ensures t.Broken? ==> !dest.ready
    ensures t.WasReset? ==> !dest.dirty && dest.ready
    ensures t.WasReset? ==> l.chunks == [] ==> ClosedFirst(ev0)
    ensures t.WasReset? ==> mayReset && CanReset(old(dest.resets)) && old(dest.resets)[0] == Some(dest.events)
    ensures mayReset && CanReset(old(dest.resets)) ==> !(t.Broken? && ClosedFirst(ev0))
    ensures t.Chunk? ==> !ClosedFirst(ev0)
  {
    ghost var before := dest.events;
    if before == [] { UsedAll(ev0, l.chunks); } else { UsedOne(ev0, before, l.chunks); }
    var destErr;
    t, destErr := RecvTurn(dest, mayReset);
    l' := l.(destErr := destErr);
    match t
    case Chunk(rbuff) => l' := TakeChunk(clt, l, rbuff, w0, plan0);
    case WasReset => if l.chunks == [] { ClosedNow(ev0, before); }
    case _ =>
  }

  /** recvResp() with the client socket: the chunks are the non-empty answers of recv(), all relayed
      until the client fails, and searched through the 70-byte tail. The end mark was found if and only if
      there was no error of the destination. The connection is made again if and only if the destination
      closes first, in the first attempt, and it can be. */
  method RecvResp(dest: DestConn, clt: Client, retryCtr: nat) returns (r: RecvResult, l: Loop)
    modifies dest`events, dest`resets, dest`dirty, dest`ready, clt`wire, clt`sendPlan
    ensures LoopOk(l, old(clt.wire), clt.wire, old(clt.sendPlan))
    ensures PlanSide(old(clt.sendPlan), clt.sendPlan, l.m, l.cltErr)
    ensures r.Received? ==> ReadTo(old(dest.events), dest.events, l) && (l.eot <==> !l.destErr)
    ensures r.ConnReset? <==> retryCtr == 0 && ClosedFirst(old(dest.events)) && CanReset(old(dest.resets))
    ensures r.ConnReset? ==> l.chunks == [] && old(dest.resets)[0] == Some(dest.events)
    ensures r.Received? ==> r == Received(l.eot, l.retStat, l.destErr, l.cltErr, l.sentCtr, l.recvCtr)
    ensures r.ConnReset? ==> !dest.dirty && dest.ready
    ensures r.Received? ==>
              if l.eot then dest.dirty == old(dest.dirty) && dest.ready == old(dest.ready) else !dest.ready
  {
    l := BEGIN;
    NothingRead();
    ghost var w0, ev0, plan0, resets0 := clt.wire, dest.events, clt.sendPlan, dest.resets;
    while !l.eot
      invariant SoFar(ev0, dest.events, l, w0, clt.wire, plan0) && dest.resets == resets0
      invariant PlanSide(plan0, clt.sendPlan, l.m, l.cltErr) && !l.destErr
      invariant ClosedFirst(ev0) ==> l.chunks == []
      invariant dest.dirty == old(dest.dirty) && dest.ready == old(dest.ready)
      decreases |dest.events|
    {
      var t;
      t, l := TakeTurn(dest, clt, l, l.recvCtr == 0 && retryCtr == 0, ev0, w0, plan0);
      if t.WasReset? {
        NothingReceived(l.chunks);
        return ConnReset, l;
      }
      if t.Broken? { break; }
    }
    LoopReads(ev0, dest.events, l, w0, clt.wire, plan0);
    r := Received(l.eot, l.retStat, l.destErr, l.cltErr, l.sentCtr, l.recvCtr);
  }
}
