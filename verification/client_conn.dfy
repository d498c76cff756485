/** A client connection: the states it goes through, its login, and the frame of its call. */
module ClientConns {
  import opened Strings

  datatype ConnState =
    | INIT | NO_LOGIN_YET | FIRST_CALL_PARSE | LOGIN_FAILED | LOGIN_OK
    | RPC_CALL_IN_PROGRESS | REGPROC_IN_PROGRESS | RPC_CALL_ENDED_OK | RPC_CALL_ENDED_FAILED
    | WAIT_FOR_POLL_EVENT | DISCONNECTING | INVALID_TRANSITION

  const NB_EVENTS := 10

  /** int(state): the slot of the state in the table of events. */
  function Slot(state: ConnState): (i: nat)
    ensures i < NB_EVENTS
  {
    match state
    case INIT => 0
    case NO_LOGIN_YET => 1
    case FIRST_CALL_PARSE => 2
    case LOGIN_FAILED => 3
    case LOGIN_OK => 4
    case RPC_CALL_IN_PROGRESS => 5
    case REGPROC_IN_PROGRESS => 5
    case RPC_CALL_ENDED_OK => 6
    case RPC_CALL_ENDED_FAILED => 6
    case WAIT_FOR_POLL_EVENT => 7
    case DISCONNECTING => 8
    case INVALID_TRANSITION => 9
  }

  /** A connection as a value; events holds the last state assigned in each slot. */
  datatype Conn = Conn(state: ConnState, userid: Option<string>, loginFailed: bool, operPerm: int,
                       frame: Option<nat>, events: seq<Option<ConnState>>, hasSocket: bool)

  /** A method call; isLogin is b_isLoginProc. */
  datatype Call =
    | AssignState(state: ConnState, isLogin: bool)
    | AssignFrame(frame: Option<nat>, failed: bool)
    | AssignUserid(userid: Option<string>, operPerm: int)
    | RpcEnded
    | RpcEndedBadly
    | Disconnect

  /** The exceptions of assignState(). */
  predicate StateDenied(c: Conn, state: ConnState, isLogin: bool) {
    || state == DISCONNECTING || c.state == DISCONNECTING
    || (c.userid == None && state == RPC_CALL_IN_PROGRESS)
    || (c.userid == None && state == REGPROC_IN_PROGRESS && (c.state != FIRST_CALL_PARSE || !isLogin))
  }

  predicate FrameDenied(c: Conn) {
    c.state == DISCONNECTING || c.state == INIT || c.loginFailed
  }

  /** The call raises an exception. */
  predicate Raises(c: Conn, call: Call) {
    match call
    case AssignState(state, isLogin) => StateDenied(c, state, isLogin)
    case AssignFrame(_, _) => FrameDenied(c)
    case AssignUserid(_, _) => c.state == DISCONNECTING
    case RpcEnded => c.state != DISCONNECTING && FrameDenied(c)
    case RpcEndedBadly => c.state != DISCONNECTING && FrameDenied(c)
    case Disconnect => false
  }

  function InState(c: Conn, state: ConnState): Conn
    requires |c.events| == NB_EVENTS
  {
    c.(state := state, events := c.events[Slot(state) := Some(state)])
  }

  function WithFrame(c: Conn, frame: Option<nat>, failed: bool): Conn
    requires |c.events| == NB_EVENTS
  {
    InState(c.(frame := frame),
            if frame.Some? then (if c.userid == None then FIRST_CALL_PARSE else RPC_CALL_IN_PROGRESS)
            else if failed then RPC_CALL_ENDED_FAILED else RPC_CALL_ENDED_OK)
  }

  function Apply(c: Conn, call: Call): (r: Conn)
    requires |c.events| == NB_EVENTS
    ensures |r.events| == NB_EVENTS
  {
    if Raises(c, call) then c
    else
      match call
      case AssignState(state, _) => InState(c, state)
      case AssignFrame(frame, failed) => WithFrame(c, frame, failed)
      case AssignUserid(userid, perm) =>
        if userid == None then InState(c, LOGIN_FAILED).(userid := None, loginFailed := true, operPerm := 0)
        else InState(c, LOGIN_OK).(userid := userid, operPerm := perm)
      case RpcEnded => if c.state == DISCONNECTING then c else InState(WithFrame(c, None, false), WAIT_FOR_POLL_EVENT)
      case RpcEndedBadly =>
        if c.state == DISCONNECTING then c else InState(WithFrame(c, None, true), WAIT_FOR_POLL_EVENT)
      case Disconnect => if c.state == DISCONNECTING then c else c.(state := DISCONNECTING, hasSocket := false)
  }

  class ClientConn {
    var hasSocket: bool
    var state: ConnState
    var userid: Option<string>
    var b_loginFailed: bool
    var operPerm: int
    var RPCframe: Option<nat>
    const eventsTable: array<Option<ConnState>>

    ghost predicate Valid() reads this { eventsTable.Length == NB_EVENTS }

    function Value(): Conn
      reads this, eventsTable
    {
      Conn(state, userid, b_loginFailed, operPerm, RPCframe, eventsTable[..], hasSocket)
    }

    constructor (hasSocket: bool)
      ensures Valid() && fresh(eventsTable)
      ensures Value() == Created(hasSocket)
    {
      this.hasSocket, userid, b_loginFailed, operPerm, RPCframe := hasSocket, None, false, 0, None;
      state := INIT;
      eventsTable := new Option<ConnState>[NB_EVENTS](_ => None);
      new;
      eventsTable[0] := Some(INIT);
    }

    /** False is the exception, here and below. */
    method DoAssignState(state: ConnState, isLogin: bool) returns (ok: bool)
      requires Valid()
      modifies this, eventsTable
      ensures Valid()
      ensures ok == !Raises(old(Value()), AssignState(state, isLogin))
      ensures Value() == Apply(old(Value()), AssignState(state, isLogin))
    {
      if state == DISCONNECTING { return false; }
      if this.state == DISCONNECTING { return false; }
      if userid == None && state == RPC_CALL_IN_PROGRESS { return false; }
      if userid == None && state == REGPROC_IN_PROGRESS && (this.state != FIRST_CALL_PARSE || !isLogin) {
        return false;
      }
      this.state := state;
      eventsTable[Slot(state)] := Some(state);
      ok := true;
    }

    /** With no frame the call has ended, badly if failed. */
    method AssignRpcFrame(frame: Option<nat>, failed: bool) returns (ok: bool)
      requires Valid()
      modifies this, eventsTable
      ensures Valid()
      ensures ok == !Raises(old(Value()), AssignFrame(frame, failed))
      ensures Value() == Apply(old(Value()), AssignFrame(frame, failed))
    {
      if state == DISCONNECTING { return false; }
      if state == INIT { return false; }
      if b_loginFailed { return false; }
      RPCframe := frame;
      if frame == None {
        ok := DoAssignState(if failed then RPC_CALL_ENDED_FAILED else RPC_CALL_ENDED_OK, false);
      } else if userid == None {
        ok := DoAssignState(FIRST_CALL_PARSE, false);
      } else {
        ok := DoAssignState(RPC_CALL_IN_PROGRESS, false);
      }
    }

    method DoAssignUserid(userid: Option<string>, operPerm: int) returns (ok: bool)
      requires Valid()
      modifies this, eventsTable
      ensures Valid()
      ensures ok == !Raises(old(Value()), AssignUserid(userid, operPerm))
      ensures Value() == Apply(old(Value()), AssignUserid(userid, operPerm))
    {
      if state == DISCONNECTING { return false; }
      this.userid := userid;
      if userid == None {
        ok := DoAssignState(LOGIN_FAILED, false);
        b_loginFailed := true;
        this.operPerm := 0;
      } else {
        this.operPerm := operPerm;
        ok := DoAssignState(LOGIN_OK, false);
      }
    }

    /** returned tells that the connection is given back to the poll list. */
    method RpcEndedReturnConnToPollList(rpcOk: bool) returns (ok: bool, returned: bool)
      requires Valid()
      modifies this, eventsTable
      ensures Valid()
      ensures var call := if rpcOk then RpcEnded else RpcEndedBadly;
              && ok == !Raises(old(Value()), call)
              && Value() == Apply(old(Value()), call)
      ensures returned <==> ok && old(state) != DISCONNECTING
    {
      if state == DISCONNECTING { return true, false; }
      ok := AssignRpcFrame(None, !rpcOk);
      if !ok { return false, false; }
      ok := DoAssignState(WAIT_FOR_POLL_EVENT, false);
      returned := true;
    }

    method ProcessDisconnect()
      requires Valid()
      modifies this, eventsTable
      ensures Valid() && Value() == Apply(old(Value()), Disconnect)
    {
      if state == DISCONNECTING { return; }
      state := DISCONNECTING;
      hasSocket := false;
    }
  }

  // ----- Over every run of calls

  function Created(hasSocket: bool): Conn {
    Conn(INIT, None, false, 0, None, [Some(INIT)] + seq(NB_EVENTS - 1, _ => None), hasSocket)
  }

  function After(c: Conn, calls: seq<Call>): (r: Conn)
    requires |c.events| == NB_EVENTS
    ensures |r.events| == NB_EVENTS
  {
    if calls == [] then c else Apply(After(c, calls[..|calls| - 1]), calls[|calls| - 1])
  }

  /** What is allowed, and where it leads: a client that has not logged in begins nothing but its login, right after
      the parsing of its first call; and a frame is only refused before the first state, after a failed login or
      to one that is disconnecting. */
  lemma Transitions(c: Conn, state: ConnState, isLogin: bool, frame: Option<nat>, failed: bool)
    requires |c.events| == NB_EVENTS
    ensures !Raises(c, AssignState(state, isLogin))
            <==> && c.state != DISCONNECTING && state != DISCONNECTING
                 && (c.userid == None ==> state != RPC_CALL_IN_PROGRESS)
                 && (c.userid == None && state == REGPROC_IN_PROGRESS ==> isLogin && c.state == FIRST_CALL_PARSE)
    ensures !Raises(c, AssignState(state, isLogin)) ==> Apply(c, AssignState(state, isLogin)).state == state
    ensures !Raises(c, AssignFrame(frame, failed)) <==> c.state !in {DISCONNECTING, INIT} && !c.loginFailed
    ensures !Raises(c, AssignFrame(frame, failed)) ==>
              && Apply(c, AssignFrame(frame, failed)).frame == frame
              && Apply(c, AssignFrame(frame, failed)).state
                 == match (frame, c.userid, failed)
                    case (Some(_), None, _) => FIRST_CALL_PARSE
                    case (Some(_), Some(_), _) => RPC_CALL_IN_PROGRESS
                    case (None, _, true) => RPC_CALL_ENDED_FAILED
                    case (None, _, false) => RPC_CALL_ENDED_OK
    ensures c.state !in {DISCONNECTING, INIT} && !c.loginFailed ==>
              && Apply(c, RpcEnded).state == Apply(c, RpcEndedBadly).state == WAIT_FOR_POLL_EVENT
              && Apply(c, RpcEnded).frame == Apply(c, RpcEndedBadly).frame == None
  {}

  /** What assignUserid() was last called with while the connection was there: the userid, its permission, and
      whether a login has ever failed. */
  datatype Login = Login(userid: Option<string>, operPerm: int, everFailed: bool)

  function LastLogin(calls: seq<Call>): Login {
    if calls == [] then Login(None, 0, false)
    else
      var before, call := LastLogin(calls[..|calls| - 1]), calls[|calls| - 1];
      if !call.AssignUserid? || Disconnect in calls then before
      else if call.userid == None then Login(None, 0, true)
      else Login(call.userid, call.operPerm, before.everFailed)
  }

  /** Whatever is called, only processDisconnect() disconnects the client, and its userid and permission are those
      of the last login before that. */
  lemma {:induction false} LoginIsLast(hasSocket: bool, calls: seq<Call>)
    ensures var c := After(Created(hasSocket), calls);
            && (c.state == DISCONNECTING <==> Disconnect in calls)
            && (c.hasSocket <==> hasSocket && Disconnect !in calls)
            && Login(c.userid, c.operPerm, c.loginFailed) == LastLogin(calls)
  {
    if calls == [] {
    } else {
      var before, call := calls[..|calls| - 1], calls[|calls| - 1];
      assert calls == before + [call];
      LoginIsLast(hasSocket, before);
      CallLogin(After(Created(hasSocket), before), call);
    }
  }

  lemma CallLogin(c: Conn, call: Call)
    requires |c.events| == NB_EVENTS
    ensures Apply(c, call).state == DISCONNECTING <==> c.state == DISCONNECTING || call.Disconnect?
    ensures Apply(c, call).hasSocket <==> c.hasSocket && (call.Disconnect? ==> c.state == DISCONNECTING)
    ensures Login(Apply(c, call).userid, Apply(c, call).operPerm, Apply(c, call).loginFailed)
            == if c.state == DISCONNECTING || !call.AssignUserid? then Login(c.userid, c.operPerm, c.loginFailed)
               else if call.userid == None then Login(None, 0, true)
               else Login(call.userid, call.operPerm, c.loginFailed)
  {}

  /** No RPC runs without a userid, and the time of the last activity can always be read. */
  predicate Sound(c: Conn) {
    && |c.events| == NB_EVENTS
    && (c.state == RPC_CALL_IN_PROGRESS ==> c.userid.Some?)
    && (c.state != DISCONNECTING ==> c.events[Slot(c.state)] == Some(c.state))
  }

  lemma CallSound(c: Conn, call: Call)
    requires Sound(c)
    ensures Sound(Apply(c, call))
  {}

  lemma {:induction false} RunsSound(hasSocket: bool, calls: seq<Call>)
    ensures Sound(After(Created(hasSocket), calls))
  {
    if calls == [] {
    } else {
      RunsSound(hasSocket, calls[..|calls| - 1]);
      CallSound(After(Created(hasSocket), calls[..|calls| - 1]), calls[|calls| - 1]);
    }
  }

  /** The call that put the connection in its registered procedure was the login call, made from the
      state of the first call's parsing. */
  predicate EnteredByLogin(c: Conn, calls: seq<Call>, i: nat)
    requires |c.events| == NB_EVENTS && i < |calls|
  {
    && calls[i] == AssignState(REGPROC_IN_PROGRESS, true)
    && After(c, calls[..i]).state == FIRST_CALL_PARSE
    && After(c, calls[..i]).userid == None
  }

  /** A connection without a userid runs a registered procedure only as its login call, right after
      the parsing of its first call. */
  lemma {:induction false} OnlyLoginBeforeLogin(hasSocket: bool, calls: seq<Call>) returns (i: nat)
    requires var c := After(Created(hasSocket), calls);
             c.state == REGPROC_IN_PROGRESS && c.userid == None
    ensures i < |calls| && EnteredByLogin(Created(hasSocket), calls, i)
    ensures forall j :: i < j <= |calls| ==> After(Created(hasSocket), calls[..j]) == After(Created(hasSocket), calls)
  {
    var k := |calls| - 1;
    var before := After(Created(hasSocket), calls[..k]);
    assert calls[..|calls|] == calls;
    EnterRegProc(before, calls[k]);
    if Raises(before, calls[k]) {
      i := OnlyLoginBeforeLogin(hasSocket, calls[..k]);
      assert calls[..k][..i] == calls[..i];
      forall j | i < j <= |calls| ensures After(Created(hasSocket), calls[..j]) == before {
        if j <= k { assert calls[..k][..j] == calls[..j]; }
      }
    } else {
      i := k;
    }
  }

  lemma EnterRegProc(c: Conn, call: Call)
    requires |c.events| == NB_EVENTS
    requires Apply(c, call).state == REGPROC_IN_PROGRESS && Apply(c, call).userid == None
    ensures || Raises(c, call)
            || (call == AssignState(REGPROC_IN_PROGRESS, true) && c.state == FIRST_CALL_PARSE && c.userid == None)
  {}

  /** Once a login has failed, whatever is called, the frame of the connection is never assigned again,
      and no call is returned to the poll list. */
  lemma {:induction false} FailedLoginGetsNoFrame(c: Conn, calls: seq<Call>)
    requires |c.events| == NB_EVENTS && c.loginFailed
    ensures After(c, calls).loginFailed && After(c, calls).frame == c.frame
    ensures After(c, calls).state != DISCONNECTING ==>
              forall frame, failed :: Raises(After(c, calls), AssignFrame(frame, failed))
    ensures After(c, calls).state != DISCONNECTING ==> Raises(After(c, calls), RpcEnded)
  {
    if calls == [] {
    } else {
      FailedLoginGetsNoFrame(c, calls[..|calls| - 1]);
    }
  }

  /** A connection that is disconnecting stays so, with nothing of it changed. */
  lemma {:induction false} DisconnectingIsFinal(c: Conn, calls: seq<Call>)
    requires |c.events| == NB_EVENTS && c.state == DISCONNECTING
    ensures After(c, calls) == c
  {
    if calls == [] {
    } else {
      DisconnectingIsFinal(c, calls[..|calls| - 1]);
    }
  }

  /** Only assignUserid() can let a connection run RPCs: until it is called with a userid none starts. */
  lemma {:induction false} NoRpcWithoutLogin(hasSocket: bool, calls: seq<Call>)
    requires forall i :: 0 <= i < |calls| ==> calls[i].AssignUserid? ==> calls[i].userid == None
    ensures var c := After(Created(hasSocket), calls);
            c.userid == None && c.state != RPC_CALL_IN_PROGRESS && c.operPerm == 0
  {
    if calls == [] {
    } else {
      NoRpcWithoutLogin(hasSocket, calls[..|calls| - 1]);
    }
  }
}
