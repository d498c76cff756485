/** What becomes of a client connection when it has sent a call: in every branch it is given back to the
    poll list, or disconnected, or queued with its call on the pool of one destination. */
module CallParser {
  import opened Strings
  import opened ClientConns

  const DS_FAIL_CANNOT_RETRY := -1105
  const DS_NOT_AVAIL := -1100
  const PARSE_ERROR_CANNOT_GET_PARAMS := -1160

  /** What mapProcnameToRPCmonitor() gives: a monitor, with or without an interceptor; a tuple of the
      wrong length; or the reason why the queue of the interceptor does not take the call. */
  datatype MonitorChoice = Monitor | WrongTuple | Refusal(ret: int)

  /** gate is why the gates do not let the call through, if they do not. A pool is open or not, or there
      is none. */
  datatype ProcCall = ProcCall(isRegProc: bool, isLoginProc: bool, isAdminUser: bool,
                               ordinaryLoginAllowed: bool, tooManyClients: bool, gate: Option<int>,
                               monitor: MonitorChoice, authPool: Option<bool>, destPool: Option<bool>)

  /** The parser's answer: None when the client has gone. */
  datatype Parsed = ClientGone | ParseError | Parsed(call: ProcCall)

  datatype Settlement = Returned | Disconnected | Queued

  predicate IsLoginOk(c: Conn) {
    c.state != DISCONNECTING && c.userid.Some? && c.userid.value != ""
  }

  predicate IsLogin(call: ProcCall) { call.isRegProc && call.isLoginProc }

  predicate IsOrdinaryLogin(call: ProcCall) { IsLogin(call) && !call.isAdminUser }

  /** Before its login a client can only call the login procedure. */
  predicate MayCall(c: Conn, call: ProcCall) { IsLoginOk(c) || IsLogin(call) }

  predicate LoginShut(call: ProcCall) { !call.ordinaryLoginAllowed || call.tooManyClients }

  /** The pool the call goes to. */
  function PoolOf(call: ProcCall): Option<bool> {
    if IsOrdinaryLogin(call) then call.authPool else call.destPool
  }

  /** What must hold for a call to reach a destination. */
  predicate LetThrough(call: ProcCall) {
    && (IsOrdinaryLogin(call) ==> !LoginShut(call))
    && call.gate == None && call.monitor == Monitor && PoolOf(call).Some? && PoolOf(call).value
  }

  /** An ordinary login that is not let through ends the connection, unless the interceptor refuses it. */
  predicate EndsConnection(call: ProcCall) {
    IsOrdinaryLogin(call) && (LoginShut(call) || call.gate.Some? || call.monitor == Monitor)
  }

  function EndOf(call: ProcCall): Settlement {
    if LetThrough(call) then Queued else if EndsConnection(call) then Disconnected else Returned
  }

  /** What can be wrong with a call, in the order in which it is looked at, with the status replied. */
  function Faults(call: ProcCall): seq<(bool, int)> {
    [(IsOrdinaryLogin(call) && !call.ordinaryLoginAllowed, DS_FAIL_CANNOT_RETRY),
     (IsOrdinaryLogin(call) && call.tooManyClients, -100),
     (call.gate.Some?, if call.gate.Some? then call.gate.value else 0),
     (call.monitor.WrongTuple?, DS_FAIL_CANNOT_RETRY),
     (call.monitor.Refusal?, if call.monitor.Refusal? then call.monitor.ret else 0),
     (PoolOf(call) == None, if IsOrdinaryLogin(call) then -106 else DS_FAIL_CANNOT_RETRY),
     (PoolOf(call).Some? && !PoolOf(call).value, DS_NOT_AVAIL)]
  }

  function FirstFault(faults: seq<(bool, int)>): Option<int> {
    if faults == [] then None else if faults[0].0 then Some(faults[0].1) else FirstFault(faults[1..])
  }

  lemma {:induction false} FirstIs(faults: seq<(bool, int)>, i: nat)
    requires i <= |faults| && (forall j :: 0 <= j < i ==> !faults[j].0) && (i < |faults| ==> faults[i].0)
    ensures FirstFault(faults) == if i < |faults| then Some(faults[i].1) else None
  {
    if i > 0 { FirstIs(faults[1..], i - 1); }
  }

  function Decide(c: Conn, p: Parsed): Settlement {
    match p
    case ClientGone => Disconnected
    case ParseError => Returned
    case Parsed(call) => if MayCall(c, call) then EndOf(call) else Disconnected
  }

  /** The status that the client is to be told, if any. */
  function ToTell(c: Conn, p: Parsed): Option<int> {
    match p
    case ClientGone => None
    case ParseError => Some(PARSE_ERROR_CANNOT_GET_PARAMS)
    case Parsed(call) => if MayCall(c, call) then FirstFault(Faults(call)) else None
  }

  function Told(ret: Option<int>, sent: bool): seq<int> {
    if ret.Some? && sent then [ret.value] else []
  }

  function Begin(call: ProcCall): Call {
    AssignState(if call.isRegProc then REGPROC_IN_PROGRESS else RPC_CALL_IN_PROGRESS, IsLogin(call))
  }

  /** The connection after the call, in the three endings. */
  function Settled(c: Conn, p: Parsed): (r: Conn)
    requires |c.events| == NB_EVENTS
    ensures |r.events| == NB_EVENTS
  {
    var began := if p.Parsed? && MayCall(c, p.call) then Apply(c, Begin(p.call)) else c;
    match Decide(c, p)
    case Returned => Apply(began, RpcEndedBadly)
    case Disconnected => Apply(began, Disconnect)
    case Queued => began
  }

  /** A connection whose call is being parsed, as assignRPCframe() left it; or, when it has a userid, as
      the worker that its previous call has failed on left it, a little later. */
  predicate InParser(c: Conn) {
    && |c.events| == NB_EVENTS && c.frame.Some? && !c.loginFailed
    && if c.userid == None then c.state == FIRST_CALL_PARSE
       else c.state == RPC_CALL_IN_PROGRESS || c.state == RPC_CALL_ENDED_FAILED
  }

  /** The queues a connection can be put in, and what is written to its client. */
  class Queues {
    var toPollList: seq<ClientConn>
    var requests: seq<ClientConn>
    var replies: seq<int>
    var ctrTotalRpcs: nat

    constructor ()
      ensures toPollList == [] && requests == [] && replies == [] && ctrTotalRpcs == 0
    {
      toPollList, requests, replies, ctrTotalRpcs := [], [], [], 0;
    }

    /** sent is whether the reply can be sent; none of the callers looks at the result. */
    method ReplyErrorToClient(ret: int, sent: bool) returns (rc: int)
      modifies this`replies
      ensures replies == old(replies) + Told(Some(ret), sent)
      ensures rc == 0 <==> sent
    {
      if !sent { return -1; }
      replies := replies + [ret];
      rc := 0;
    }

    method ReturnConn(conn: ClientConn)
      requires conn.Valid() && InService(conn.Value())
      modifies this`toPollList, conn, conn.eventsTable
      ensures conn.Valid() && conn.Value() == Apply(old(conn.Value()), RpcEndedBadly)
      ensures toPollList == old(toPollList) + [conn]
    {
      var ok, returned := conn.RpcEndedReturnConnToPollList(false);
      if returned { toPollList := toPollList + [conn]; }
    }
  }

  predicate InService(c: Conn) {
    |c.events| == NB_EVENTS && c.state != DISCONNECTING && c.state != INIT && !c.loginFailed
  }

  /** The reply, then the end of the call in the given way. */
  method Refuse(conn: ClientConn, q: Queues, ret: int, how: Settlement, sent: bool)
    requires conn.Valid() && InService(conn.Value()) && how != Queued
    modifies q`toPollList, q`replies, conn, conn.eventsTable
    ensures conn.Valid() && q.replies == old(q.replies) + Told(Some(ret), sent)
    ensures how == Returned ==> conn.Value() == Apply(old(conn.Value()), RpcEndedBadly)
                                && q.toPollList == old(q.toPollList) + [conn]
    ensures how == Disconnected ==> conn.Value() == Apply(old(conn.Value()), Disconnect)
                                    && q.toPollList == old(q.toPollList)
  {
    var _ := q.ReplyErrorToClient(ret, sent);
    if how == Returned { q.ReturnConn(conn); } else { conn.ProcessDisconnect(); }
  }

  /** The tests that follow assignState() in continueProcCallProcessing(): the client is told of the first
      thing that is wrong, if that can be sent. */
  method RouteCall(conn: ClientConn, q: Queues, call: ProcCall, sent: bool) returns (s: Settlement)
    requires conn.Valid() && InService(conn.Value())
    modifies q`toPollList, q`replies, q`requests, conn, conn.eventsTable
    ensures conn.Valid() && s == EndOf(call)
    ensures q.replies == old(q.replies) + Told(FirstFault(Faults(call)), sent)
    ensures conn.Value() == match s
                            case Returned => Apply(old(conn.Value()), RpcEndedBadly)
                            case Disconnected => Apply(old(conn.Value()), Disconnect)
                            case Queued => old(conn.Value())
    ensures q.toPollList == old(q.toPollList) + if s == Returned then [conn] else []
    ensures q.requests == old(q.requests) + if s == Queued then [conn] else []
  {
    var ordinaryLogin := IsOrdinaryLogin(call);
    if ordinaryLogin && LoginShut(call) {
      FirstIs(Faults(call), if !call.ordinaryLoginAllowed then 0 else 1);
      Refuse(conn, q, if !call.ordinaryLoginAllowed then DS_FAIL_CANNOT_RETRY else -100, Disconnected, sent);
      return Disconnected;
    }
    if call.gate.Some? {
      FirstIs(Faults(call), 2);
      s := if ordinaryLogin then Disconnected else Returned;
      Refuse(conn, q, call.gate.value, s, sent);
      return;
    }
    if call.monitor == WrongTuple {
      FirstIs(Faults(call), 3);
      Refuse(conn, q, DS_FAIL_CANNOT_RETRY, Returned, sent);
      return Returned;
    }
    if call.monitor.Refusal? {
      FirstIs(Faults(call), 4);
      Refuse(conn, q, call.monitor.ret, Returned, sent);
      return Returned;
    }
    var pool := if ordinaryLogin then call.authPool else call.destPool;
    FirstIs(Faults(call), if pool == None then 5 else if !pool.value then 6 else 7);
    if pool == None && ordinaryLogin {
      Refuse(conn, q, -106, Disconnected, sent);
      return Disconnected;
    }
    if pool == None || !pool.value {
      s := if ordinaryLogin then Disconnected else Returned;
      Refuse(conn, q, if pool == None then DS_FAIL_CANNOT_RETRY else DS_NOT_AVAIL, s, sent);
      return;
    }
    q.requests := q.requests + [conn];
    s := Queued;
  }

  /** continueProcCallProcessing() */
  method ContinueProcCallProcessing(conn: ClientConn, q: Queues, p: Parsed, sent: bool) returns (s: Settlement)
    requires conn.Valid() && InParser(conn.Value())
    modifies q, conn, conn.eventsTable
    ensures conn.Valid() && s == Decide(old(conn.Value()), p)
    ensures q.replies == old(q.replies) + Told(ToTell(old(conn.Value()), p), sent)
    ensures conn.Value() == Settled(old(conn.Value()), p)
    ensures q.toPollList == old(q.toPollList) + if s == Returned then [conn] else []
    ensures q.requests == old(q.requests) + if s == Queued then [conn] else []
    ensures q.ctrTotalRpcs == old(q.ctrTotalRpcs) + if p.Parsed? && !p.call.isRegProc then 1 else 0
  {
    match p
    case ClientGone =>
      conn.ProcessDisconnect();
      return Disconnected;
    case ParseError =>
      Refuse(conn, q, PARSE_ERROR_CANNOT_GET_PARAMS, Returned, sent);
      return Returned;
    case Parsed(call) =>
      if !call.isRegProc { q.ctrTotalRpcs := q.ctrTotalRpcs + 1; }
      if !IsLoginOk(conn.Value()) && !IsLogin(call) {
        conn.ProcessDisconnect();
        return Disconnected;
      }
      MayBegin(conn.Value(), call);
      var ok := conn.DoAssignState(if call.isRegProc then REGPROC_IN_PROGRESS else RPC_CALL_IN_PROGRESS, IsLogin(call));
      assert ok;   // the branch that handles its exception is never taken
      s := RouteCall(conn, q, call, sent);
  }

  /** assignState() is never denied here. */
  lemma MayBegin(c: Conn, call: ProcCall)
    requires InParser(c) && MayCall(c, call)
    ensures !Raises(c, Begin(call)) && InService(Apply(c, Begin(call)))
  {}

  /** What the protocol promises a client whose call does not go on: a reply, or a disconnection. */
  predicate Answered(c: Conn, p: Parsed, sent: bool) {
    Decide(c, p) == Queued || Decide(c, p) == Disconnected || Told(ToTell(c, p), sent) != []
  }

  /** The promise is kept if and only if the reply can be sent, or the branch does not return the
      connection: the result of the reply is not looked at. */
  lemma AnsweredIff(c: Conn, p: Parsed, sent: bool)
    ensures Answered(c, p, sent) <==> sent || Decide(c, p) != Returned
  {
    if p.Parsed? && EndOf(p.call) == Returned { ReturnedIsTold(p.call); }
  }

  /** A call that is not let through has a status to tell; one that is has none. */
  lemma ReturnedIsTold(call: ProcCall)
    ensures LetThrough(call) <==> FirstFault(Faults(call)) == None
  {
    var faults := Faults(call);
    NoFault(faults);
    if !LetThrough(call) {
      assert faults[0].0 || faults[1].0 || faults[2].0 || faults[3].0 || faults[4].0 || faults[5].0 || faults[6].0;
    }
  }

  lemma {:induction false} NoFault(faults: seq<(bool, int)>)
    ensures FirstFault(faults) == None <==> forall i :: 0 <= i < |faults| ==> !faults[i].0
  {
    if faults != [] && !faults[0].0 {
      NoFault(faults[1..]);
      assert forall i :: 0 < i < |faults| ==> faults[i] == faults[1..][i - 1];
    }
  }

  /** The client has logged in, and is still there. */
  predicate IsKnown(c: Conn) { c.state != DISCONNECTING && c.userid != None && c.userid != Some("") }

  /** A call that loses its client the connection: one made before any login that is not the login itself; or a
      login, but that of an administrator, that finds the logins shut or too many clients, a closed gate, or,
      when its monitor is chosen, no open pool of its own. */
  predicate LosesConnection(c: Conn, call: ProcCall) {
    if !(call.isRegProc && call.isLoginProc) then !IsKnown(c)
    else !call.isAdminUser
         && (!call.ordinaryLoginAllowed || call.tooManyClients || call.gate != None
             || (call.monitor == Monitor && call.authPool != Some(true)))
  }

  /** Exactly these are disconnected, with those whose client has gone; no other call loses its client the
      connection, however it is refused. */
  lemma DisconnectedIff(c: Conn, p: Parsed)
    ensures Decide(c, p) == Disconnected <==> p == ClientGone || (p.Parsed? && LosesConnection(c, p.call))
  {}

  /** A call goes on exactly when it may be made, an ordinary login is not shut out, no gate and no interceptor
      stops it, and its pool is open: that of the logins for an ordinary login, or else that of its
      destination. */
  lemma QueuedIff(c: Conn, p: Parsed)
    ensures Decide(c, p) == Queued
            <==> && p.Parsed? && p.call.gate == None && p.call.monitor == Monitor
                 && if !(p.call.isRegProc && p.call.isLoginProc) then IsKnown(c) && p.call.destPool == Some(true)
                    else if p.call.isAdminUser then p.call.destPool == Some(true)
                    else && p.call.authPool == Some(true)
                         && p.call.ordinaryLoginAllowed && !p.call.tooManyClients
  {}

  /** What the client is told: in which order the faults are looked at, and the status of each. */
  lemma ToldFirst(c: Conn, call: ProcCall)
    requires (call.isRegProc && call.isLoginProc) || IsKnown(c)
    ensures var ordinary, told := call.isRegProc && call.isLoginProc && !call.isAdminUser, ToTell(c, Parsed(call));
            told == if ordinary && !call.ordinaryLoginAllowed then Some(-1105)
                    else if ordinary && call.tooManyClients then Some(-100)
                    else if call.gate != None then call.gate
                    else if call.monitor == WrongTuple then Some(-1105)
                    else if call.monitor.Refusal? then Some(call.monitor.ret)
                    else if ordinary && call.authPool == None then Some(-106)
                    else if !ordinary && call.destPool == None then Some(-1105)
                    else if (if ordinary then call.authPool else call.destPool) == Some(false) then Some(-1100)
                    else None
    ensures ToTell(c, ParseError) == Some(-1160) && ToTell(c, ClientGone) == None
  {
    var faults := Faults(call);
    var i := if faults[0].0 then 0 else if faults[1].0 then 1 else if faults[2].0 then 2 else if faults[3].0 then 3
             else if faults[4].0 then 4 else if faults[5].0 then 5 else if faults[6].0 then 6 else 7;
    FirstIs(faults, i);
  }

  /** A client that breaks the protocol is told nothing. */
  lemma NotTold(c: Conn, call: ProcCall)
    requires !(call.isRegProc && call.isLoginProc) && !IsKnown(c)
    ensures ToTell(c, Parsed(call)) == None && Decide(c, Parsed(call)) == Disconnected
  {}

  /** A connection at rest: its call has ended. */
  predicate AtRest(c: Conn) {
    && |c.events| == NB_EVENTS && c.frame == None && !c.loginFailed
    && (c.state == WAIT_FOR_POLL_EVENT || c.state == RPC_CALL_ENDED_FAILED)
  }

  /** A connection whose call is on its way to its destination, or there. */
  predicate InCall(c: Conn) {
    && |c.events| == NB_EVENTS && c.frame.Some? && !c.loginFailed
    && (c.state == RPC_CALL_IN_PROGRESS || c.state == REGPROC_IN_PROGRESS || c.state == RPC_CALL_ENDED_FAILED)
    && (c.userid == None ==> c.state == REGPROC_IN_PROGRESS)
  }

  lemma SettledWhere(c: Conn, p: Parsed)
    requires InParser(c)
    ensures match Decide(c, p)
            case Returned => AtRest(Settled(c, p))
            case Disconnected => Settled(c, p).state == DISCONNECTING
            case Queued =>
              && InCall(Settled(c, p)) && Settled(c, p).frame == c.frame
              && Settled(c, p).state == if p.call.isRegProc then REGPROC_IN_PROGRESS else RPC_CALL_IN_PROGRESS
    ensures Settled(c, p).userid == c.userid && Settled(c, p).loginFailed == c.loginFailed
  {
    if p.Parsed? && MayCall(c, p.call) { MayBegin(c, p.call); }
  }

  // ----- A request comes in

  datatype Admission = Rejected | Dropped | Admitted

  function NewConn(frame: nat): Conn {
    Apply(Apply(Created(true), AssignState(NO_LOGIN_YET, false)), AssignFrame(Some(frame), false))
  }

  /** addClientRequestToCallParserQueue(): known is the connection found in the index, if any; for a new
      one there may be too many clients, or the socket may not be usable. */
  method AddClientRequest(known: ClientConn?, frame: nat, tooMany: bool, socketOk: bool, parserQueue: seq<ClientConn>)
    returns (conn: ClientConn?, a: Admission, parserQueue': seq<ClientConn>)
    requires known != null ==> known.Valid() && AtRest(known.Value())
    modifies known, if known == null then {} else {known.eventsTable}
    ensures a.Admitted? <==> conn != null
    ensures parserQueue' == if conn == null then parserQueue else parserQueue + [conn]
    ensures conn != null ==> conn.Valid() && InParser(conn.Value()) && conn.RPCframe == Some(frame)
    ensures known == null ==> (a.Admitted? <==> !tooMany && socketOk)
    ensures known == null && conn != null ==> fresh(conn) && conn.Value() == NewConn(frame)
    ensures known != null ==> (conn == known <==> old(IsLoginOk(known.Value()))) && (conn == null ==> a.Dropped?)
    ensures known != null ==>
              known.Value() == Apply(old(known.Value()),
                                     if conn == known then AssignFrame(Some(frame), false) else Disconnect)
  {
    parserQueue' := parserQueue;
    conn := known;
    if known == null {
      if tooMany || !socketOk { return null, Rejected, parserQueue; }
      conn := new ClientConn(true);
      var ok := conn.DoAssignState(NO_LOGIN_YET, false);
    } else if !IsLoginOk(known.Value()) {
      known.ProcessDisconnect();
      return null, Dropped, parserQueue;
    }
    var ok := conn.AssignRpcFrame(Some(frame), false);
    assert ok;   // the frame is never denied
    a := Admitted;
    parserQueue' := parserQueue + [conn];
  }
}
