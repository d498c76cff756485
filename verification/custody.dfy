/** Who has each client connection, over whole runs of the server: the poll list, the queue of those to
    return to it, the queue of the call parsers, a parser, the queue of a destination, or a worker. */
module Custody {
  import opened Strings
  import opened ClientConns
  import opened CallParser

  type ConnId = nat

  /** started, returned and dropped count the calls that began, that ended with the return of their
      connection, and that ended with its disconnection; silent counts those that ended without a reply to
      their client. late is the connections that a worker has returned after a failure, and whose state it
      will assign once more. calls has the last call that each connection was queued with. forgotten is the
      connections that a worker has let go without returning or disconnecting them. */
  datatype Gateway = Gateway(conns: map<ConnId, Conn>,
                             pollList: multiset<ConnId>, toPollList: multiset<ConnId>,
                             parserQueue: multiset<ConnId>, parsing: multiset<ConnId>,
                             destQueues: multiset<ConnId>, running: multiset<ConnId>, late: multiset<ConnId>,
                             started: nat, returned: nat, dropped: nat, silent: nat,
                             calls: map<ConnId, ProcCall>, forgotten: set<ConnId>)

  /** How a call ends: it succeeds or fails, and its client is told or not; its thread cannot be started; the
      client is disconnected; or it is a login. When the reply of a registered procedure or of a login cannot
      be sent, the worker does nothing more: the login counts, and the connection is forgotten. */
  datatype Ending =
    | Done(ok: bool, told: bool)
    | NotStarted
    | Broken
    | LoggedIn(userid: string, perm: int)
    | LoginRefused
    | Forgotten(login: Option<string>, loginPerm: int)

  datatype Event =
    | NewClient(id: ConnId)
    | Readable(id: ConnId)
    | Hangup(id: ConnId)
    | BackToPoll(id: ConnId)
    | StartParse(id: ConnId)
    | EndParse(id: ConnId, p: Parsed, sent: bool)
    | StartRun(id: ConnId)
    | EndRun(id: ConnId, e: Ending)
    | LateState(id: ConnId)

  predicate Enabled(s: Gateway, ev: Event) {
    match ev
    case NewClient(id) => id !in s.conns
    case Readable(id) => id in s.pollList
    case Hangup(id) => id in s.pollList
    case BackToPoll(id) => id in s.toPollList
    case StartParse(id) => id in s.parserQueue
    case EndParse(id, _, _) => id in s.parsing
    case StartRun(id) => id in s.destQueues
    case EndRun(id, _) => id in s.running
    case LateState(id) => id in s.late
  }

  /** A worker's last calls on the connection. */
  function Ended(c: Conn, e: Ending): Conn
    requires |c.events| == NB_EVENTS
  {
    match e
    case Done(ok, _) =>
      if ok then Apply(Apply(c, AssignState(RPC_CALL_ENDED_OK, false)), RpcEnded)
      else Apply(Apply(c, AssignState(RPC_CALL_ENDED_FAILED, false)), RpcEndedBadly)
    case NotStarted => Apply(c, RpcEndedBadly)
    case Broken => Apply(c, Disconnect)
    case LoggedIn(userid, perm) =>
      Apply(Apply(Apply(c, AssignUserid(Some(userid), perm)), AssignState(RPC_CALL_ENDED_OK, false)), RpcEnded)
    case LoginRefused => Apply(Apply(c, AssignUserid(None, 0)), Disconnect)
    case Forgotten(login, perm) => if login.Some? then Apply(c, AssignUserid(login, perm)) else c
  }

  predicate Returns(e: Ending) { e.Done? || e.NotStarted? || e.LoggedIn? }

  /** The client got a reply, or is disconnected. */
  predicate Tells(e: Ending) { !e.NotStarted? && !e.Forgotten? && (e.Done? ==> e.told) }

  function ConnOf(s: Gateway, id: ConnId): (c: Conn)
    ensures |c.events| == NB_EVENTS
  {
    if id in s.conns && |s.conns[id].events| == NB_EVENTS then s.conns[id] else Created(true)
  }

  function Out(m: multiset<ConnId>, id: ConnId): multiset<ConnId> { m - multiset{id} }

  function In(m: multiset<ConnId>, id: ConnId): multiset<ConnId> { m + multiset{id} }

  function Next(s: Gateway, ev: Event): Gateway
    requires Enabled(s, ev)
  {
    match ev
    case NewClient(id) =>
      s.(conns := s.conns[id := NewConn(s.started)], parserQueue := In(s.parserQueue, id), started := s.started + 1)
    case Readable(id) =>
      var c := ConnOf(s, id);
      if IsLoginOk(c) then
        s.(conns := s.conns[id := Apply(c, AssignFrame(Some(s.started), false))],
           pollList := Out(s.pollList, id), parserQueue := In(s.parserQueue, id), started := s.started + 1)
      else s.(conns := s.conns[id := Apply(c, Disconnect)], pollList := Out(s.pollList, id))
    case Hangup(id) =>
      s.(conns := s.conns[id := Apply(ConnOf(s, id), Disconnect)], pollList := Out(s.pollList, id))
    case BackToPoll(id) => s.(toPollList := Out(s.toPollList, id), pollList := In(s.pollList, id))
    case StartParse(id) => s.(parserQueue := Out(s.parserQueue, id), parsing := In(s.parsing, id))
    case EndParse(id, p, sent) => AfterParse(s, id, p, sent)
    case StartRun(id) => s.(destQueues := Out(s.destQueues, id), running := In(s.running, id))
    case EndRun(id, e) =>
      var t := s.(conns := s.conns[id := Ended(ConnOf(s, id), e)], running := Out(s.running, id),
                  late := if e.Done? && !e.ok then In(s.late, id) else s.late,
                  silent := if Tells(e) then s.silent else s.silent + 1);
      if Returns(e) then t.(toPollList := In(s.toPollList, id), returned := s.returned + 1)
      else if e.Forgotten? then t.(forgotten := s.forgotten + {id})
      else t.(dropped := s.dropped + 1)
    case LateState(id) =>
      s.(conns := s.conns[id := Apply(ConnOf(s, id), AssignState(RPC_CALL_ENDED_FAILED, false))],
         late := Out(s.late, id))
  }

  /** sent is whether a reply to the client can be sent. */
  function AfterParse(s: Gateway, id: ConnId, p: Parsed, sent: bool): Gateway {
    var c := ConnOf(s, id);
    var t := s.(conns := s.conns[id := Settled(c, p)], parsing := Out(s.parsing, id),
                silent := if Answered(c, p, sent) then s.silent else s.silent + 1);
    match Decide(c, p)
    case Returned => t.(toPollList := In(s.toPollList, id), returned := s.returned + 1)
    case Disconnected => t.(dropped := s.dropped + 1)
    case Queued =>
      t.(destQueues := In(s.destQueues, id), calls := if p.Parsed? then s.calls[id := p.call] else s.calls)
  }

  // ----- Custody

  /** How many times a connection is held. */
  function Held(s: Gateway, id: ConnId): nat {
    s.pollList[id] + s.toPollList[id] + s.parserQueue[id] + s.parsing[id] + s.destQueues[id] + s.running[id]
  }

  predicate IsLive(s: Gateway, id: ConnId) {
    id in s.conns && s.conns[id].state != DISCONNECTING
  }

  /** A live connection is held once, unless it is forgotten; any other never. */
  ghost predicate HeldOnce(s: Gateway) {
    && (forall id :: Held(s, id) == if IsLive(s, id) && id !in s.forgotten then 1 else 0)
    && (forall id :: id in s.forgotten ==> IsLive(s, id))
  }

  /** The connections are in the states that their holders expect. */
  ghost predicate AsExpected(s: Gateway) {
    forall id :: id in s.conns ==> ExpectedAt(s, id)
  }

  function InFlight(s: Gateway): nat {
    |s.parserQueue| + |s.parsing| + |s.destQueues| + |s.running|
  }

  /** Every call that has begun has ended once, or is on its way, or its connection is forgotten. */
  predicate CallsKept(s: Gateway) {
    s.started == s.returned + s.dropped + |s.forgotten| + InFlight(s)
  }

  /** A connection whose state is still to be assigned by its last worker has logged in, or has not begun
      another call. */
  ghost predicate LateHarmless(s: Gateway) {
    forall id :: id in s.late ==> id in s.conns && LateOk(s, id)
  }

  predicate LateOk(s: Gateway, id: ConnId)
    requires id in s.conns
  {
    s.conns[id].userid == None ==> s.conns[id].state == DISCONNECTING || AtRest(s.conns[id])
  }

  ghost predicate Safe(s: Gateway) {
    HeldOnce(s) && AsExpected(s) && CallsKept(s) && LateHarmless(s)
  }

  /** The step concerns one connection: the others are held as they were. */
  ghost predicate OthersKept(s: Gateway, t: Gateway, id: ConnId) {
    forall y :: y != id ==>
      && s.pollList[y] == t.pollList[y] && s.toPollList[y] == t.toPollList[y]
      && s.parserQueue[y] == t.parserQueue[y] && s.parsing[y] == t.parsing[y]
      && s.destQueues[y] == t.destQueues[y] && s.running[y] == t.running[y]
      && (y in s.forgotten <==> y in t.forgotten)
  }

  ghost predicate ExpectedAt(s: Gateway, id: ConnId)
    requires id in s.conns
  {
    && |s.conns[id].events| == NB_EVENTS
    && (id in s.pollList || id in s.toPollList ==> AtRest(s.conns[id]))
    && (id in s.parserQueue || id in s.parsing ==> InParser(s.conns[id]))
    && (id in s.destQueues || id in s.running ==> InCall(s.conns[id]))
  }

  lemma OneConnection(s: Gateway, t: Gateway, id: ConnId, c: Conn)
    requires HeldOnce(s) && AsExpected(s) && OthersKept(s, t, id) && t.conns == s.conns[id := c]
    requires ExpectedAt(t, id) && Held(t, id) == if c.state != DISCONNECTING && id !in t.forgotten then 1 else 0
    requires id in t.forgotten ==> c.state != DISCONNECTING
    requires LateHarmless(s) && (id in t.late ==> LateOk(t, id)) && forall y :: y != id ==> t.late[y] == s.late[y]
    ensures HeldOnce(t) && AsExpected(t) && LateHarmless(t)
  {
    OneHeld(s, t, id, c);
    forall y | y in t.late ensures y in t.conns && LateOk(t, y) {
      if y != id { assert y in s.late; }
    }
    forall y | y in t.conns ensures ExpectedAt(t, y) {
      if y != id { assert ExpectedAt(s, y); }
    }
  }

  lemma OneHeld(s: Gateway, t: Gateway, id: ConnId, c: Conn)
    requires HeldOnce(s) && OthersKept(s, t, id) && t.conns == s.conns[id := c]
    requires Held(t, id) == if c.state != DISCONNECTING && id !in t.forgotten then 1 else 0
    requires id in t.forgotten ==> c.state != DISCONNECTING
    ensures HeldOnce(t)
  {
    forall y ensures Held(t, y) == if IsLive(t, y) && y !in t.forgotten then 1 else 0 {
      if y != id { assert Held(t, y) == Held(s, y) && IsLive(t, y) == IsLive(s, y); }
    }
  }

  lemma HeldHere(s: Gateway, id: ConnId)
    requires Safe(s) && Held(s, id) > 0
    ensures id in s.conns && IsLive(s, id) && Held(s, id) == 1 && id !in s.forgotten
    ensures ExpectedAt(s, id) && ConnOf(s, id) == s.conns[id]
  {
    assert id in s.conns;
    assert ExpectedAt(s, id);
  }

  lemma NotHeld(s: Gateway, id: ConnId)
    requires HeldOnce(s) && id !in s.conns
    ensures Held(s, id) == 0 && id !in s.forgotten
  {}

  lemma NewClientSafe(s: Gateway, id: ConnId)
    requires Safe(s) && Enabled(s, NewClient(id))
    ensures Safe(Next(s, NewClient(id)))
  {
    NotHeld(s, id);
    var t := Next(s, NewClient(id));
    assert |t.parserQueue| == |s.parserQueue| + 1;
    OneConnection(s, t, id, NewConn(s.started));
  }

  lemma OutOf(m: multiset<ConnId>, id: ConnId)
    requires id in m
    ensures |Out(m, id)| == |m| - 1
  {}

  lemma Into(m: multiset<ConnId>, id: ConnId)
    ensures |In(m, id)| == |m| + 1
  {}

  /** A step that only hands the connection over. */
  lemma HandedOver(s: Gateway, t: Gateway, id: ConnId)
    requires Safe(s) && id in s.conns && ExpectedAt(s, id) && OthersKept(s, t, id) && t.conns == s.conns
    requires Held(t, id) == Held(s, id) && InFlight(t) == InFlight(s)
    requires t.started == s.started && t.returned == s.returned && t.dropped == s.dropped && t.late == s.late
    requires t.forgotten == s.forgotten
    requires ExpectedAt(t, id)
    ensures Safe(t)
  {
    assert t.conns == s.conns[id := s.conns[id]];
    OneConnection(s, t, id, s.conns[id]);
  }

  lemma BackToPollSafe(s: Gateway, id: ConnId)
    requires Safe(s) && Enabled(s, BackToPoll(id))
    ensures Safe(Next(s, BackToPoll(id)))
  {
    HeldHere(s, id);
    HandedOver(s, Next(s, BackToPoll(id)), id);
  }

  lemma StartParseSafe(s: Gateway, id: ConnId)
    requires Safe(s) && Enabled(s, StartParse(id))
    ensures Safe(Next(s, StartParse(id)))
  {
    HeldHere(s, id);
    OutOf(s.parserQueue, id);
    Into(s.parsing, id);
    HandedOver(s, Next(s, StartParse(id)), id);
  }

  lemma StartRunSafe(s: Gateway, id: ConnId)
    requires Safe(s) && Enabled(s, StartRun(id))
    ensures Safe(Next(s, StartRun(id)))
  {
    HeldHere(s, id);
    OutOf(s.destQueues, id);
    Into(s.running, id);
    HandedOver(s, Next(s, StartRun(id)), id);
  }

  lemma HangupSafe(s: Gateway, id: ConnId)
    requires Safe(s) && Enabled(s, Hangup(id))
    ensures Safe(Next(s, Hangup(id)))
  {
    HeldHere(s, id);
    OneConnection(s, Next(s, Hangup(id)), id, Apply(s.conns[id], Disconnect));
  }

  lemma FrameAssigned(c: Conn, frame: nat)
    requires AtRest(c) && IsLoginOk(c)
    ensures InParser(Apply(c, AssignFrame(Some(frame), false)))
    ensures Apply(c, AssignFrame(Some(frame), false)).state != DISCONNECTING
  {}

  lemma ReadableSafe(s: Gateway, id: ConnId)
    requires Safe(s) && Enabled(s, Readable(id))
    ensures Safe(Next(s, Readable(id)))
  {
    HeldHere(s, id);
    var c := s.conns[id];
    if IsLoginOk(c) {
      FrameAssigned(c, s.started);
      CallBegins(s, Next(s, Readable(id)), id, Apply(c, AssignFrame(Some(s.started), false)));
    } else {
      Unlogged(s, id, c);
    }
  }

  lemma Unlogged(s: Gateway, id: ConnId, c: Conn)
    requires Safe(s) && id in s.pollList && c == ConnOf(s, id) && !IsLoginOk(c)
    ensures Safe(Next(s, Readable(id)))
  {
    HeldHere(s, id);
    OneConnection(s, Next(s, Readable(id)), id, Apply(c, Disconnect));
  }

  lemma CallBegins(s: Gateway, t: Gateway, id: ConnId, c: Conn)
    requires Safe(s) && id in s.pollList && InParser(c) && c.state != DISCONNECTING && c.userid.Some?
    requires t == s.(conns := s.conns[id := c], pollList := Out(s.pollList, id),
                     parserQueue := In(s.parserQueue, id), started := s.started + 1)
    ensures Safe(t)
  {
    HeldHere(s, id);
    Into(s.parserQueue, id);
    OneConnection(s, t, id, c);
  }

  /** The three endings of a call in the parser. */
  lemma ParserGivesBack(s: Gateway, t: Gateway, id: ConnId, c: Conn)
    requires Safe(s) && id in s.parsing && AtRest(c)
    requires t == s.(conns := s.conns[id := c], parsing := Out(s.parsing, id), toPollList := In(s.toPollList, id),
                     returned := s.returned + 1, silent := t.silent)
    ensures Safe(t)
  {
    HeldHere(s, id);
    OutOf(s.parsing, id);
    OneConnection(s, t, id, c);
  }

  lemma ParserDrops(s: Gateway, t: Gateway, id: ConnId, c: Conn)
    requires Safe(s) && id in s.parsing && c.state == DISCONNECTING && |c.events| == NB_EVENTS
    requires t == s.(conns := s.conns[id := c], parsing := Out(s.parsing, id), dropped := s.dropped + 1,
                     silent := t.silent)
    ensures Safe(t)
  {
    HeldHere(s, id);
    OutOf(s.parsing, id);
    OneConnection(s, t, id, c);
  }

  lemma ParserQueues(s: Gateway, t: Gateway, id: ConnId, c: Conn)
    requires Safe(s) && id in s.parsing && InCall(c) && c.userid == ConnOf(s, id).userid
    requires t == s.(conns := s.conns[id := c], parsing := Out(s.parsing, id), destQueues := In(s.destQueues, id),
                     silent := t.silent, calls := t.calls)
    ensures Safe(t)
  {
    HeldHere(s, id);
    OutOf(s.parsing, id);
    Into(s.destQueues, id);
    OneConnection(s, t, id, c);
  }

  lemma ParsedSafe(s: Gateway, id: ConnId, p: Parsed, sent: bool)
    requires Safe(s) && Enabled(s, EndParse(id, p, sent))
    ensures Safe(AfterParse(s, id, p, sent))
  {
    HeldHere(s, id);
    var c, t := Settled(s.conns[id], p), AfterParse(s, id, p, sent);
    SettledWhere(s.conns[id], p);
    match Decide(s.conns[id], p) {
      case Returned => ParserGivesBack(s, t, id, c);
      case Disconnected => ParserDrops(s, t, id, c);
      case Queued => ParserQueues(s, t, id, c);
    }
  }

  lemma EndedWhere(c: Conn, e: Ending)
    requires InCall(c)
    ensures if Returns(e) then AtRest(Ended(c, e))
            else if e.Forgotten? then |Ended(c, e).events| == NB_EVENTS && Ended(c, e).state != DISCONNECTING
            else Ended(c, e).state == DISCONNECTING && |Ended(c, e).events| == NB_EVENTS
    ensures e.Forgotten? ==> Ended(c, e).userid == None ==> c.userid == None
  {}

  lemma WorkerForgets(s: Gateway, t: Gateway, id: ConnId, c: Conn)
    requires Safe(s) && id in s.running && |c.events| == NB_EVENTS && c.state != DISCONNECTING
    requires c.userid == None ==> ConnOf(s, id).userid == None
    requires t == s.(conns := s.conns[id := c], running := Out(s.running, id), forgotten := s.forgotten + {id},
                     silent := t.silent)
    ensures Safe(t)
  {
    HeldHere(s, id);
    OutOf(s.running, id);
    OneConnection(s, t, id, c);
  }

  lemma WorkerGivesBack(s: Gateway, t: Gateway, id: ConnId, c: Conn)
    requires Safe(s) && id in s.running && AtRest(c)
    requires t == s.(conns := s.conns[id := c], running := Out(s.running, id), toPollList := In(s.toPollList, id),
                     returned := s.returned + 1, late := t.late, silent := t.silent)
    requires t.late == s.late || t.late == In(s.late, id)
    ensures Safe(t)
  {
    HeldHere(s, id);
    OutOf(s.running, id);
    OneConnection(s, t, id, c);
  }

  lemma WorkerDrops(s: Gateway, t: Gateway, id: ConnId, c: Conn)
    requires Safe(s) && id in s.running && |c.events| == NB_EVENTS && c.state == DISCONNECTING
    requires t == s.(conns := s.conns[id := c], running := Out(s.running, id), dropped := s.dropped + 1,
                     silent := t.silent)
    ensures Safe(t)
  {
    HeldHere(s, id);
    OutOf(s.running, id);
    OneConnection(s, t, id, c);
  }

  /** The endings of a call in a worker. */
  lemma RunEndsSafe(s: Gateway, id: ConnId, e: Ending)
    requires Safe(s) && Enabled(s, EndRun(id, e))
    ensures Safe(Next(s, EndRun(id, e)))
  {
    HeldHere(s, id);
    EndedWhere(s.conns[id], e);
    var t, c := Next(s, EndRun(id, e)), Ended(s.conns[id], e);
    if Returns(e) {
      WorkerGivesBack(s, t, id, c);
    } else if e.Forgotten? {
      WorkerForgets(s, t, id, c);
    } else {
      WorkerDrops(s, t, id, c);
    }
  }

  lemma LateStateKeeps(c: Conn)
    requires |c.events| == NB_EVENTS
    ensures var d := Apply(c, AssignState(RPC_CALL_ENDED_FAILED, false));
            && (d.state == DISCONNECTING <==> c.state == DISCONNECTING) && d.userid == c.userid
            && (AtRest(c) ==> AtRest(d))
            && (c.userid.Some? && InParser(c) ==> InParser(d))
            && (c.userid.Some? && InCall(c) ==> InCall(d))
  {}

  /** The late assignment of a state changes nothing that the holder of the connection relies on. */
  lemma LateStateSafe(s: Gateway, id: ConnId)
    requires Safe(s) && Enabled(s, LateState(id))
    ensures Safe(Next(s, LateState(id)))
  {
    var c, t := s.conns[id], Next(s, LateState(id));
    assert LateOk(s, id) && ExpectedAt(s, id);
    LateStateKeeps(c);
    assert Held(t, id) == Held(s, id);
    assert Held(s, id) == if c.state != DISCONNECTING && id !in s.forgotten then 1 else 0;
    assert InParser(c) || InCall(c) ==> c.frame.Some?;
    OneConnection(s, t, id, Apply(c, AssignState(RPC_CALL_ENDED_FAILED, false)));
  }

  lemma StepSafe(s: Gateway, ev: Event)
    requires Safe(s) && Enabled(s, ev)
    ensures Safe(Next(s, ev))
  {
    match ev
    case NewClient(id) => NewClientSafe(s, id);
    case Readable(id) => ReadableSafe(s, id);
    case Hangup(id) => HangupSafe(s, id);
    case BackToPoll(id) => BackToPollSafe(s, id);
    case StartParse(id) => StartParseSafe(s, id);
    case EndParse(id, p, sent) => ParsedSafe(s, id, p, sent);
    case StartRun(id) => StartRunSafe(s, id);
    case LateState(id) => LateStateSafe(s, id);
    case EndRun(id, e) => RunEndsSafe(s, id, e);
  }

  // ----- Over whole runs

  predicate Initial(s: Gateway) {
    s == Gateway(map[], multiset{}, multiset{}, multiset{}, multiset{}, multiset{}, multiset{}, multiset{},
                 0, 0, 0, 0, map[], {})
  }

  predicate IsRun(s: Gateway, evs: seq<Event>)
    decreases evs
  {
    evs != [] ==> Enabled(s, evs[0]) && IsRun(Next(s, evs[0]), evs[1..])
  }

  function After(s: Gateway, evs: seq<Event>): Gateway
    requires IsRun(s, evs)
    decreases evs
  {
    if evs == [] then s else After(Next(s, evs[0]), evs[1..])
  }

  lemma InitialIsSafe(s: Gateway)
    requires Initial(s)
    ensures Safe(s)
  {}

  lemma {:induction false} RunsSafe(s: Gateway, evs: seq<Event>)
    requires Safe(s) && IsRun(s, evs)
    ensures Safe(After(s, evs))
    decreases evs
  {
    if evs != [] {
      StepSafe(s, evs[0]);
      RunsSafe(Next(s, evs[0]), evs[1..]);
    }
  }

  /** In every run a connection that is not disconnected has one holder, unless it is forgotten, and one that
      is has none; it has a frame exactly while its call is being parsed, queued or run; and every call that
      has begun has ended with one return of its connection, or one disconnection, or was forgotten with it,
      or is on its way. */
  lemma OneHolder(s0: Gateway, evs: seq<Event>, id: ConnId)
    requires Initial(s0) && IsRun(s0, evs)
    ensures var s := After(s0, evs);
            && Held(s, id) == (if IsLive(s, id) && id !in s.forgotten then 1 else 0)
            && (Held(s, id) > 0 ==> (s.conns[id].frame.Some? <==> id !in s.pollList && id !in s.toPollList))
            && s.started == s.returned + s.dropped + |s.forgotten| + InFlight(s)
  {
    InitialIsSafe(s0);
    RunsSafe(s0, evs);
    FrameIffInCall(After(s0, evs), id);
  }

  lemma FrameIffInCall(s: Gateway, id: ConnId)
    requires Safe(s)
    ensures Held(s, id) > 0 ==>
              && id in s.conns
              && (s.conns[id].frame.Some? <==> id !in s.pollList && id !in s.toPollList)
  {
    if Held(s, id) > 0 { HeldHere(s, id); }
  }

  /** No connection is stranded but the forgotten ones: whoever holds it can go on with it. */
  lemma NeverStranded(s0: Gateway, evs: seq<Event>, id: ConnId) returns (ev: Event)
    requires Initial(s0) && IsRun(s0, evs) && IsLive(After(s0, evs), id) && id !in After(s0, evs).forgotten
    ensures Enabled(After(s0, evs), ev) && !ev.NewClient? && !ev.LateState? && ev.id == id
  {
    InitialIsSafe(s0);
    RunsSafe(s0, evs);
    ev := HolderCanGoOn(After(s0, evs), id);
  }

  predicate Forgets(ev: Event) { ev.EndRun? && ev.e.Forgotten? }

  lemma {:induction false} OnlyGrows(s: Gateway, evs: seq<Event>)
    requires IsRun(s, evs)
    ensures s.forgotten <= After(s, evs).forgotten
    ensures After(s, evs).forgotten == s.forgotten || exists i :: 0 <= i < |evs| && Forgets(evs[i])
    decreases evs
  {
    if evs != [] { OnlyGrows(Next(s, evs[0]), evs[1..]); }
  }

  lemma {:induction false} Remembers(s: Gateway, evs: seq<Event>, i: nat)
    requires IsRun(s, evs) && i < |evs| && Forgets(evs[i])
    ensures evs[i].id in After(s, evs).forgotten
    decreases evs
  {
    if i == 0 {
      ForgottenNow(s, evs[0]);
      OnlyGrows(Next(s, evs[0]), evs[1..]);
    } else {
      Remembers(Next(s, evs[0]), evs[1..], i - 1);
    }
  }

  lemma ForgottenNow(s: Gateway, ev: Event)
    requires Enabled(s, ev) && Forgets(ev)
    ensures ev.id in Next(s, ev).forgotten
  {}

  /** In every run, every live connection has a holder if and only if no reply of a registered procedure or
      of a login has failed, with its connection forgotten. */
  lemma AllHeldIff(s0: Gateway, evs: seq<Event>)
    requires Initial(s0) && IsRun(s0, evs)
    ensures (forall id :: IsLive(After(s0, evs), id) ==> Held(After(s0, evs), id) == 1)
            <==> forall i :: 0 <= i < |evs| ==> !Forgets(evs[i])
  {
    InitialIsSafe(s0);
    RunsSafe(s0, evs);
    OnlyGrows(s0, evs);
    forall i | 0 <= i < |evs| && Forgets(evs[i]) ensures evs[i].id in After(s0, evs).forgotten {
      Remembers(s0, evs, i);
    }
    HeldIffRemembered(After(s0, evs));
  }

  lemma HeldIffRemembered(s: Gateway)
    requires Safe(s)
    ensures (forall id :: IsLive(s, id) ==> Held(s, id) == 1) <==> s.forgotten == {}
  {
    forall id | id in s.forgotten ensures IsLive(s, id) && Held(s, id) == 0 {}
  }

  lemma HolderCanGoOn(s: Gateway, id: ConnId) returns (ev: Event)
    requires Safe(s) && IsLive(s, id) && id !in s.forgotten
    ensures Enabled(s, ev) && !ev.NewClient? && !ev.LateState? && ev.id == id
  {
    assert Held(s, id) == 1;
    ev := if id in s.pollList then Readable(id)
          else if id in s.toPollList then BackToPoll(id)
          else if id in s.parserQueue then StartParse(id)
          else if id in s.parsing then EndParse(id, ClientGone, false)
          else if id in s.destQueues then StartRun(id)
          else EndRun(id, Broken);
  }

  // ----- What is let through

  /** A call that is queued or run was let through, and is the login when its client has no userid yet. */
  predicate MayRun(c: Conn, call: ProcCall) {
    LetThrough(call) && (c.userid == None ==> IsLogin(call))
  }

  predicate Sent(s: Gateway, id: ConnId) { id in s.destQueues || id in s.running }

  ghost predicate OnlyAdmitted(s: Gateway) {
    forall id :: Sent(s, id) ==> id in s.calls && id in s.conns && MayRun(s.conns[id], s.calls[id])
  }

  lemma OthersAdmitted(s: Gateway, t: Gateway, id: ConnId)
    requires OnlyAdmitted(s)
    requires forall y :: y != id ==> (Sent(t, y) <==> Sent(s, y))
    requires forall y :: y != id && y in s.calls ==> y in t.calls && t.calls[y] == s.calls[y]
    requires forall y :: y != id && y in s.conns ==> y in t.conns && t.conns[y] == s.conns[y]
    requires Sent(t, id) ==> id in t.calls && id in t.conns && MayRun(t.conns[id], t.calls[id])
    ensures OnlyAdmitted(t)
  {}

  /** The connection is not on its way to a destination, or no longer. */
  lemma NotSent(s: Gateway, t: Gateway, id: ConnId)
    requires OnlyAdmitted(s) && !Sent(t, id) && t.calls == s.calls && t.destQueues == s.destQueues
    requires t.running == s.running || t.running == Out(s.running, id)
    requires t.conns == s.conns || (id in t.conns && t.conns == s.conns[id := t.conns[id]])
    ensures OnlyAdmitted(t)
  {
    OthersAdmitted(s, t, id);
  }

  lemma ParseAdmits(s: Gateway, id: ConnId, p: Parsed, sent: bool)
    requires Safe(s) && OnlyAdmitted(s) && Enabled(s, EndParse(id, p, sent))
    ensures OnlyAdmitted(Next(s, EndParse(id, p, sent)))
  {
    HeldHere(s, id);
    SettledWhere(s.conns[id], p);
    var t := AfterParse(s, id, p, sent);
    if Decide(s.conns[id], p) == Queued {
      assert t.calls == s.calls[id := p.call] && MayRun(t.conns[id], p.call);
    }
    OthersAdmitted(s, t, id);
  }

  lemma NewAdmits(s: Gateway, id: ConnId)
    requires Safe(s) && OnlyAdmitted(s) && Enabled(s, NewClient(id))
    ensures OnlyAdmitted(Next(s, NewClient(id)))
  {
    NotHeld(s, id);
    OthersAdmitted(s, Next(s, NewClient(id)), id);
  }

  lemma StartRunAdmits(s: Gateway, id: ConnId)
    requires Safe(s) && OnlyAdmitted(s) && Enabled(s, StartRun(id))
    ensures OnlyAdmitted(Next(s, StartRun(id)))
  {
    assert Sent(s, id);
    OthersAdmitted(s, Next(s, StartRun(id)), id);
  }

  lemma EndAdmits(s: Gateway, id: ConnId, e: Ending)
    requires Safe(s) && OnlyAdmitted(s) && Enabled(s, EndRun(id, e))
    ensures OnlyAdmitted(Next(s, EndRun(id, e)))
  {
    HeldHere(s, id);
    NotSent(s, Next(s, EndRun(id, e)), id);
  }

  lemma LateAdmits(s: Gateway, id: ConnId)
    requires Safe(s) && OnlyAdmitted(s) && Enabled(s, LateState(id))
    ensures OnlyAdmitted(Next(s, LateState(id)))
  {
    assert LateOk(s, id) && ExpectedAt(s, id);
    LateStateKeeps(s.conns[id]);
    if Sent(s, id) { assert id in s.calls; }
    OthersAdmitted(s, Next(s, LateState(id)), id);
  }

  // Steps of a connection that is not on its way to a destination.

  lemma ReadableAdmits(s: Gateway, id: ConnId)
    requires Safe(s) && OnlyAdmitted(s) && Enabled(s, Readable(id))
    ensures OnlyAdmitted(Next(s, Readable(id)))
  {
    HeldHere(s, id);
    NotSent(s, Next(s, Readable(id)), id);
  }

  lemma HangupAdmits(s: Gateway, id: ConnId)
    requires Safe(s) && OnlyAdmitted(s) && Enabled(s, Hangup(id))
    ensures OnlyAdmitted(Next(s, Hangup(id)))
  {
    HeldHere(s, id);
    NotSent(s, Next(s, Hangup(id)), id);
  }

  lemma BackToPollAdmits(s: Gateway, id: ConnId)
    requires Safe(s) && OnlyAdmitted(s) && Enabled(s, BackToPoll(id))
    ensures OnlyAdmitted(Next(s, BackToPoll(id)))
  {
    HeldHere(s, id);
    NotSent(s, Next(s, BackToPoll(id)), id);
  }

  lemma StartParseAdmits(s: Gateway, id: ConnId)
    requires Safe(s) && OnlyAdmitted(s) && Enabled(s, StartParse(id))
    ensures OnlyAdmitted(Next(s, StartParse(id)))
  {
    HeldHere(s, id);
    NotSent(s, Next(s, StartParse(id)), id);
  }

  lemma StepAdmits(s: Gateway, ev: Event)
    requires Safe(s) && OnlyAdmitted(s) && Enabled(s, ev)
    ensures OnlyAdmitted(Next(s, ev))
  {
    match ev
    case NewClient(id) => NewAdmits(s, id);
    case EndParse(id, p, sent) => ParseAdmits(s, id, p, sent);
    case StartRun(id) => StartRunAdmits(s, id);
    case EndRun(id, e) => EndAdmits(s, id, e);
    case LateState(id) => LateAdmits(s, id);
    case Readable(id) => ReadableAdmits(s, id);
    case Hangup(id) => HangupAdmits(s, id);
    case BackToPoll(id) => BackToPollAdmits(s, id);
    case StartParse(id) => StartParseAdmits(s, id);
  }

  lemma {:induction false} RunsAdmit(s: Gateway, evs: seq<Event>)
    requires Safe(s) && OnlyAdmitted(s) && IsRun(s, evs)
    ensures OnlyAdmitted(After(s, evs))
    decreases evs
  {
    if evs != [] {
      StepSafe(s, evs[0]);
      StepAdmits(s, evs[0]);
      RunsAdmit(Next(s, evs[0]), evs[1..]);
    }
  }

  /** In every run, a call that is queued for a destination or runs has passed the login gate (for an
      ordinary login), the RPC gates, the interceptor and the destination's gate; and when its client has
      no userid yet, it is the login call. */
  lemma OnlyLetThroughRuns(s0: Gateway, evs: seq<Event>, id: ConnId)
    requires Initial(s0) && IsRun(s0, evs)
    ensures var s := After(s0, evs);
            Sent(s, id) ==>
              && id in s.calls && id in s.conns && LetThrough(s.calls[id])
              && (s.conns[id].userid == None ==> IsLogin(s.calls[id]) && s.conns[id].state == REGPROC_IN_PROGRESS)
  {
    InitialIsSafe(s0);
    RunsSafe(s0, evs);
    RunsAdmit(s0, evs);
    if Sent(After(s0, evs), id) { HeldHere(After(s0, evs), id); }
  }

  // ----- What is answered

  /** Every reply could be sent: those of the calls that a parser returned, and those of the workers; and
      every thread could be started. */
  predicate RepliesSent(s: Gateway, evs: seq<Event>)
    requires IsRun(s, evs)
    decreases evs
  {
    evs == [] || (
      && (evs[0].EndParse? && Decide(ConnOf(s, evs[0].id), evs[0].p) == Returned ==> evs[0].sent)
      && (evs[0].EndRun? ==> !evs[0].e.NotStarted? && !evs[0].e.Forgotten? && (evs[0].e.Done? ==> evs[0].e.told))
      && RepliesSent(Next(s, evs[0]), evs[1..]))
  }

  lemma {:induction false} SilentGrows(s: Gateway, evs: seq<Event>)
    requires IsRun(s, evs)
    ensures After(s, evs).silent >= s.silent
    ensures After(s, evs).silent == s.silent <==> RepliesSent(s, evs)
    decreases evs
  {
    if evs != [] {
      if evs[0].EndParse? { AnsweredIff(ConnOf(s, evs[0].id), evs[0].p, evs[0].sent); }
      SilentGrows(Next(s, evs[0]), evs[1..]);
    }
  }

  /** In every run, each call that has ended was replied to, or its client disconnected, if and only if every
      reply, but those that a disconnection follows, could be sent and every thread be started. */
  lemma AlwaysAnsweredIff(s0: Gateway, evs: seq<Event>)
    requires Initial(s0) && IsRun(s0, evs)
    ensures After(s0, evs).silent == 0 <==> RepliesSent(s0, evs)
  {
    SilentGrows(s0, evs);
  }

  /** A call that cannot be parsed, and whose reply cannot be sent, leaves its connection in the poll list,
      neither replied to nor disconnected. */
  lemma LeftUnanswered(s0: Gateway, id: ConnId)
    requires Initial(s0)
    ensures var evs := [NewClient(id), StartParse(id), EndParse(id, ParseError, false), BackToPoll(id)];
            && IsRun(s0, evs) && After(s0, evs).silent == 1
            && id in After(s0, evs).pollList && IsLive(After(s0, evs), id)
  {
    var evs := [NewClient(id), StartParse(id), EndParse(id, ParseError, false), BackToPoll(id)];
    var s1, s2 := FirstParse(s0, id);
    var s3 := ParsedSilently(s2, id);
    FirstStep(s3, evs[3..], Next(s3, evs[3]));
    FirstStep(s2, evs[2..], s3);
    FirstStep(s1, evs[1..], s2);
    FirstStep(s0, evs, s1);
  }

  lemma ParsedSilently(s2: Gateway, id: ConnId) returns (s3: Gateway)
    requires Safe(s2) && id in s2.parsing && id in s2.conns && s2.silent == 0 && ConnOf(s2, id) == s2.conns[id]
    ensures s3 == Next(s2, EndParse(id, ParseError, false)) && Safe(s3) && id in s3.toPollList && s3.silent == 1
    ensures IsLive(s3, id)
  {
    s3 := Next(s2, EndParse(id, ParseError, false));
    AnsweredIff(s2.conns[id], ParseError, false);
    ParsedSafe(s2, id, ParseError, false);
    HeldHere(s3, id);
  }

  lemma FirstStep(s: Gateway, evs: seq<Event>, t: Gateway)
    requires evs != [] && Enabled(s, evs[0]) && Next(s, evs[0]) == t
    ensures IsRun(t, evs[1..]) ==> IsRun(s, evs) && After(s, evs) == After(t, evs[1..])
  {}

  lemma FirstParse(s0: Gateway, id: ConnId) returns (s1: Gateway, s2: Gateway)
    requires Initial(s0)
    ensures Enabled(s0, NewClient(id)) && Next(s0, NewClient(id)) == s1
    ensures Enabled(s1, StartParse(id)) && Next(s1, StartParse(id)) == s2
    ensures Safe(s2) && id in s2.parsing && id in s2.conns && s2.silent == 0 && ConnOf(s2, id) == s2.conns[id]
  {
    s1 := Next(s0, NewClient(id));
    s2 := Next(s1, StartParse(id));
    InitialIsSafe(s0);
    NewClientSafe(s0, id);
    StartParseSafe(s1, id);
    HeldHere(s2, id);
  }

  /** A login, or an operator's registered procedure, whose reply cannot be sent leaves its connection open
      with nobody to go on with it. */
  lemma ConnectionForgotten(s0: Gateway, id: ConnId, call: ProcCall, userid: string)
    requires Initial(s0) && IsLogin(call) && LetThrough(call)
    ensures var evs := [NewClient(id), StartParse(id), EndParse(id, Parsed(call), true), StartRun(id),
                        EndRun(id, Forgotten(Some(userid), 0))];
            && IsRun(s0, evs) && IsLive(After(s0, evs), id) && Held(After(s0, evs), id) == 0
  {
    var evs := [NewClient(id), StartParse(id), EndParse(id, Parsed(call), true), StartRun(id),
                EndRun(id, Forgotten(Some(userid), 0))];
    var s1, s2 := FirstParse(s0, id);
    var s3, s4 := StartsToRun(s2, id, call);
    var s5 := EndsForgotten(s4, id, Forgotten(Some(userid), 0));
    ThreeSteps(s2, evs[2..], s3, s4, s5);
    FirstStep(s1, evs[1..], s2);
    FirstStep(s0, evs, s1);
  }

  lemma EndsForgotten(s4: Gateway, id: ConnId, e: Ending) returns (s5: Gateway)
    requires Safe(s4) && id in s4.running && e.Forgotten?
    ensures s5 == Next(s4, EndRun(id, e)) && IsLive(s5, id) && Held(s5, id) == 0
  {
    s5 := Next(s4, EndRun(id, e));
    RunEndsSafe(s4, id, e);
    ForgottenNow(s4, EndRun(id, e));
  }

  lemma ThreeSteps(s: Gateway, evs: seq<Event>, t: Gateway, u: Gateway, v: Gateway)
    requires |evs| == 3 && Enabled(s, evs[0]) && Next(s, evs[0]) == t
    requires Enabled(t, evs[1]) && Next(t, evs[1]) == u && Enabled(u, evs[2]) && Next(u, evs[2]) == v
    ensures IsRun(s, evs) && After(s, evs) == v
  {
    assert evs[1..][1..] == evs[2..] && evs[2..][1..] == [];
    FirstStep(u, evs[2..], v);
    FirstStep(t, evs[1..], u);
    FirstStep(s, evs, t);
  }

  lemma StartsToRun(s2: Gateway, id: ConnId, call: ProcCall) returns (s3: Gateway, s4: Gateway)
    requires Safe(s2) && id in s2.parsing && IsLogin(call) && LetThrough(call)
    ensures s3 == Next(s2, EndParse(id, Parsed(call), true)) && id in s3.destQueues
    ensures s4 == Next(s3, StartRun(id)) && id in s4.running && Safe(s4)
  {
    s3 := Next(s2, EndParse(id, Parsed(call), true));
    ParsedSafe(s2, id, Parsed(call), true);
    s4 := Next(s3, StartRun(id));
    StartRunSafe(s3, id);
  }
}
