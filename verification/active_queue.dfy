/** The active queue: its thread sends each queued RPC until it is done, dropped or suspended, and waits
    for the completion of each call on a lock that the completion callback releases. */
module ActiveQueues {
  import opened Strings

  // ----- What is done about a return status

  const DS_NOT_AVAIL := -1100
  const DS_RPC_TIMEOUT := -1101
  const DS_DEADLOCK := -1205
  const OS_RPC_GATE_CLOSED := -1150
  const GW_NOT_TO_RETRY_BEGIN := -1310
  const GW_NOT_TO_RETRY_END := -1399

  const DROP_VALUES := {-1102, -1103, -100, -1105, -1112}
  const RETRY_VALUES := {-1150, -1151, -1155, -1156, -1201, -1202, -1203, -1300, -1360, -1361, -1362}

  datatype Verdict = Success | Drop | Retry | Ping | Suspend

  /** The tests of doProcCallWithRetry(), in its order. */
  function VerdictOn(ret: int): Verdict {
    if ret == 0 then Success
    else if ret >= 1 then Drop
    else if ret == OS_RPC_GATE_CLOSED then Retry
    else if ret == -6 || ret == DS_DEADLOCK || ret == DS_RPC_TIMEOUT then Retry
    else if ret in RETRY_VALUES then Retry
    else if ret == DS_NOT_AVAIL then Ping
    else if ret in DROP_VALUES || ret < GW_NOT_TO_RETRY_END || ret > GW_NOT_TO_RETRY_BEGIN then Drop
    else Suspend
  }

  /** A call is done with 0 and nothing else; a destination that is not available is pinged; only a status
      between -1399 and -1310 that is not to be retried suspends the queue; and a call is given up with any
      other status than these and those that allow it to be made again. */
  lemma Verdicts(ret: int)
    ensures VerdictOn(ret) == Success <==> ret == 0
    ensures VerdictOn(ret) == Ping <==> ret == -1100
    ensures VerdictOn(ret) == Retry <==> ret in {-6, -1101, -1150, -1151, -1155, -1156, -1201, -1202, -1203, -1205,
                                                 -1300, -1360, -1361, -1362}
    ensures VerdictOn(ret) == Suspend <==> -1399 <= ret <= -1310 && ret !in {-1360, -1361, -1362}
    ensures ret in DROP_VALUES ==> VerdictOn(ret) == Drop
  {}

  // ----- The retry loop

  /** What the loop meets: the status of one call (sent is false when the interceptor's queue refused
      it before it was sent), and whether the final stop flag is set when it is looked at next. */
  datatype Reply = Reply(ret: int, sent: bool, stop: bool)

  /** One turn of the loop, and the pings that followed it. */
  datatype Turn = Turn(reply: Reply, pings: seq<Reply>)

  function Flat(turns: seq<Turn>): seq<Reply> {
    if turns == [] then []
    else
      var t := turns[|turns| - 1];
      Flat(turns[..|turns| - 1]) + [t.reply] + t.pings
  }

  /** The loop went on after the turn: its status allowed a retry, and the pings went on until one was
      answered by a destination that is available. */
  predicate WentOn(t: Turn) {
    match VerdictOn(t.reply.ret)
    case Retry => t.pings == []
    case Suspend => t.pings == [] && !t.reply.stop
    case Ping =>
      && t.pings != [] && !t.reply.stop
      && (forall i :: 0 <= i < |t.pings| - 1 ==> t.pings[i].ret == DS_NOT_AVAIL && !t.pings[i].stop)
      && t.pings[|t.pings| - 1].ret != DS_NOT_AVAIL
    case _ => false
  }

  /** The loop was left in the turn, with ret. */
  predicate LeftWith(t: Turn, ret: int) {
    && ret == t.reply.ret
    && match VerdictOn(t.reply.ret)
       case Success => t.pings == []
       case Drop => t.pings == []
       case Retry => false
       case Suspend => t.pings == [] && t.reply.stop
       case Ping =>
         && (forall i :: 0 <= i < |t.pings| ==> t.pings[i].ret == DS_NOT_AVAIL)
         && (forall i :: 0 <= i < |t.pings| - 1 ==> !t.pings[i].stop)
         && (if t.pings == [] then t.reply.stop else !t.reply.stop && t.pings[|t.pings| - 1].stop)
  }

  /** The replies ran out in the turn: the loop is still waiting. */
  predicate StillWaiting(t: Turn) {
    VerdictOn(t.reply.ret) == Ping && !t.reply.stop
    && forall i :: 0 <= i < |t.pings| ==> t.pings[i].ret == DS_NOT_AVAIL && !t.pings[i].stop
  }

  function SentIn(turns: seq<Turn>): nat {
    if turns == [] then 0
    else SentIn(turns[..|turns| - 1]) + if turns[|turns| - 1].reply.sent then 1 else 0
  }

  function SuspendedIn(turns: seq<Turn>): nat {
    if turns == [] then 0
    else SuspendedIn(turns[..|turns| - 1]) + if VerdictOn(turns[|turns| - 1].reply.ret) == Suspend then 1 else 0
  }

  function PingsIn(turns: seq<Turn>): nat {
    if turns == [] then 0 else PingsIn(turns[..|turns| - 1]) + |turns[|turns| - 1].pings|
  }

  lemma TurnEnds(turns: seq<Turn>, t: Turn)
    ensures Flat(turns + [t]) == Flat(turns) + [t.reply] + t.pings
    ensures SentIn(turns + [t]) == SentIn(turns) + if t.reply.sent then 1 else 0
    ensures SuspendedIn(turns + [t]) == SuspendedIn(turns) + if VerdictOn(t.reply.ret) == Suspend then 1 else 0
    ensures PingsIn(turns + [t]) == PingsIn(turns) + |t.pings|
  {
    assert (turns + [t])[..|turns|] == turns;
  }

  /** Where the loop is after a reply: about to make the call, about to ping, or left with a status. */
  datatype Mode = Calling | Pinging | Left(ret: int)

  function Advance(m: Mode, r: Reply): Mode {
    match m
    case Left(_) => m
    case Pinging => if r.ret != DS_NOT_AVAIL then Calling else if r.stop then Left(r.ret) else Pinging
    case Calling =>
      match VerdictOn(r.ret)
      case Success => Left(r.ret)
      case Drop => Left(r.ret)
      case Retry => Calling
      case Suspend => if r.stop then Left(r.ret) else Calling
      case Ping => if r.stop then Left(r.ret) else Pinging
  }

  function ModeAfter(m: Mode, replies: seq<Reply>): Mode
    decreases replies
  {
    if replies == [] then m else ModeAfter(Advance(m, replies[0]), replies[1..])
  }

  lemma {:induction false} LeftStays(ret: int, replies: seq<Reply>)
    ensures ModeAfter(Left(ret), replies) == Left(ret)
    decreases replies
  {
    if replies != [] { LeftStays(ret, replies[1..]); }
  }

  /** The thread of an active queue. */
  class ActiveQueueMonitor {
    var callsSent: nat      // RPC calls, without the pings
    var pingsSent: nat
    var suspensions: nat    // times the queue was closed for get()
    var paramsLogged: nat   // calls whose parameters were logged as not done

    constructor ()
      ensures callsSent == 0 && pingsSent == 0 && suspensions == 0 && paramsLogged == 0
    {
      callsSent, pingsSent, suspensions, paramsLogged := 0, 0, 0, 0;
    }

    /** The pings that follow DS_NOT_AVAIL. */
    method PingUntilAvailable(stop: bool, replies: seq<Reply>) returns (pings: seq<Reply>, stopped: bool)
      modifies this`pingsSent
      ensures pings <= replies && pingsSent == old(pingsSent) + |pings|
      ensures forall i :: 0 <= i < |pings| - 1 ==> pings[i].ret == DS_NOT_AVAIL && !pings[i].stop
      ensures stop ==> pings == [] && stopped
      ensures stopped && !stop ==>
                pings != [] && pings[|pings| - 1] == Reply(DS_NOT_AVAIL, pings[|pings| - 1].sent, true)
      ensures !stopped && pings != [] && pings[|pings| - 1].ret == DS_NOT_AVAIL ==>
                !pings[|pings| - 1].stop && pings == replies
      ensures !stopped && pings == [] ==> replies == []
      ensures !stop ==> ModeAfter(Pinging, replies)
                        == (if stopped then Left(DS_NOT_AVAIL)
                            else if pings != [] && pings[|pings| - 1].ret != DS_NOT_AVAIL
                            then ModeAfter(Calling, replies[|pings|..]) else Pinging)
    {
      pings := [];
      stopped := stop;
      while !stopped && |pings| < |replies|
        invariant pings <= replies && pingsSent == old(pingsSent) + |pings|
        invariant forall i :: 0 <= i < |pings| ==> pings[i].ret == DS_NOT_AVAIL
        invariant forall i :: 0 <= i < |pings| - 1 ==> !pings[i].stop
        invariant stop ==> pings == []
        invariant stopped == if pings == [] then stop else pings[|pings| - 1].stop
        invariant !stop ==> ModeAfter(Pinging, replies)
                            == ModeAfter(if stopped then Left(DS_NOT_AVAIL) else Pinging, replies[|pings|..])
        decreases |replies| - |pings|, !stopped
      {
        var r := replies[|pings|];
        pings := pings + [r];
        pingsSent := pingsSent + 1;
        if r.ret != DS_NOT_AVAIL { return pings, false; }
        stopped := r.stop;
      }
      if stopped { LeftStays(DS_NOT_AVAIL, replies[|pings|..]); }
    }

    /** One turn of the loop of doProcCallWithRetry(). */
    method TakeTurn(replies: seq<Reply>) returns (t: Turn, left: bool)
      requires replies != []
      modifies this
      ensures [t.reply] + t.pings <= replies
      ensures left ==> LeftWith(t, t.reply.ret)
      ensures !left ==> WentOn(t) || (StillWaiting(t) && [t.reply] + t.pings == replies)
      ensures callsSent == old(callsSent) + (if t.reply.sent then 1 else 0)
      ensures pingsSent == old(pingsSent) + |t.pings|
      ensures suspensions == old(suspensions) + (if VerdictOn(t.reply.ret) == Suspend then 1 else 0)
      ensures paramsLogged == old(paramsLogged) + (if VerdictOn(t.reply.ret) == Drop then 1 else 0)
      ensures left ==> ModeAfter(Calling, replies) == Left(t.reply.ret)
      ensures !left && WentOn(t) ==> ModeAfter(Calling, replies) == ModeAfter(Calling, replies[|t.pings| + 1..])
      ensures !left && !WentOn(t) ==> ModeAfter(Calling, replies) == Pinging
    {
      var r := replies[0];
      if r.sent { callsSent := callsSent + 1; }
      var pings := [];
      left := false;
      match VerdictOn(r.ret) {
        case Success => left := true;
        case Drop =>
          paramsLogged := paramsLogged + 1;
          left := true;
        case Retry =>
        case Ping => pings, left := PingUntilAvailable(r.stop, replies[1..]);
        case Suspend =>
          suspensions := suspensions + 1;
          left := r.stop;
      }
      if left { LeftStays(r.ret, replies[1..]); }
      t := Turn(r, pings);
    }

    /** doProcCallWithRetry(), for the replies that come; None when they run out first. */
    method DoProcCallWithRetry(replies: seq<Reply>) returns (ret: Option<int>, ghost turns: seq<Turn>)
      modifies this
      ensures ret == if ModeAfter(Calling, replies).Left? then Some(ModeAfter(Calling, replies).ret) else None
      ensures Flat(turns) <= replies
      ensures ret == None ==> Flat(turns) == replies
      ensures forall i :: 0 <= i < |turns| - 1 ==> WentOn(turns[i])
      ensures ret.Some? ==> turns != [] && LeftWith(turns[|turns| - 1], ret.value)
      ensures ret == None && turns != [] ==> WentOn(turns[|turns| - 1]) || StillWaiting(turns[|turns| - 1])
      ensures callsSent == old(callsSent) + SentIn(turns)
      ensures pingsSent == old(pingsSent) + PingsIn(turns)
      ensures suspensions == old(suspensions) + SuspendedIn(turns)
      ensures paramsLogged == old(paramsLogged) + (if ret.Some? && VerdictOn(ret.value) == Drop then 1 else 0)
    {
      turns := [];
      var rest := replies;
      while rest != []
        invariant GoneThrough(turns, rest, replies)
        invariant callsSent == old(callsSent) + SentIn(turns)
        invariant pingsSent == old(pingsSent) + PingsIn(turns)
        invariant suspensions == old(suspensions) + SuspendedIn(turns)
        invariant paramsLogged == old(paramsLogged)
        decreases |rest|
      {
        var t, left := TakeTurn(rest);
        TurnEnds(turns, t);
        OneMoreTurn(turns, t, rest, replies);
        turns := turns + [t];
        rest := rest[|t.pings| + 1..];
        if left { return Some(t.reply.ret), turns; }
        NotDropped(t);
      }
      ret := None;
    }

    /** The end of getOneRPCandSendIt(): a call that is left with another status than 0 never goes unlogged.
        The stop flag, once seen, stays set. */
    method GetOneRpcAndSendIt(replies: seq<Reply>, stopSince: bool) returns (ret: Option<int>)
      modifies this
      ensures ret == if ModeAfter(Calling, replies).Left? then Some(ModeAfter(Calling, replies).ret) else None
      ensures ret.Some? && ret.value != 0 ==> paramsLogged > old(paramsLogged)
      ensures ret == Some(0) ==> paramsLogged == old(paramsLogged) + (if stopSince then 1 else 0)
    {
      ghost var turns;
      ret, turns := DoProcCallWithRetry(replies);
      var stoppedInside := ret.Some? && ret.value != 0 && VerdictOn(ret.value) != Drop;
      if ret.Some? && (stopSince || stoppedInside) { paramsLogged := paramsLogged + 1; }
    }
  }

  /** The turns that the loop has gone through; all that follows is up to the rest of the replies, or, when the
      last turn still waits, nothing follows. */
  ghost predicate GoneThrough(turns: seq<Turn>, rest: seq<Reply>, replies: seq<Reply>) {
    && Flat(turns) + rest == replies
    && (forall i :: 0 <= i < |turns| - 1 ==> WentOn(turns[i]))
    && if turns == [] || WentOn(turns[|turns| - 1]) then ModeAfter(Calling, replies) == ModeAfter(Calling, rest)
       else StillWaiting(turns[|turns| - 1]) && rest == [] && ModeAfter(Calling, replies) == Pinging
  }

  lemma OneMoreTurn(turns: seq<Turn>, t: Turn, rest: seq<Reply>, replies: seq<Reply>)
    requires Flat(turns) + rest == replies && [t.reply] + t.pings <= rest
    ensures Flat(turns + [t]) + rest[|t.pings| + 1..] == replies
  {
    TurnEnds(turns, t);
    SplitReplies(Flat(turns), [t.reply], t.pings, rest);
  }

  lemma SplitReplies(before: seq<Reply>, call: seq<Reply>, pings: seq<Reply>, rest: seq<Reply>)
    requires call + pings <= rest
    ensures before + call + pings + rest[|call + pings|..] == before + rest
  {
    assert rest == (call + pings) + rest[|call + pings|..];
  }

  lemma NotDropped(t: Turn)
    requires WentOn(t) || StillWaiting(t)
    ensures VerdictOn(t.reply.ret) != Drop
  {}
}
