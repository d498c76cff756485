/** Which connections are disconnected, and who is logged in, over whole runs of the server. */
module CustodyDrops {
  import opened Strings
  import opened ClientConns
  import opened CallParser
  import opened Custody

  predicate IsDown(s: Gateway, id: ConnId) { id in s.conns && s.conns[id].state == DISCONNECTING }

  /** The step is a cause of a disconnection: the client hangs up, or sends something without being known; the
      parser finds that it has gone, or it loses its connection with its call; or a worker cannot go on with it,
      or refuses its login. */
  predicate Drops(s: Gateway, ev: Event) {
    match ev
    case Hangup(_) => true
    case Readable(id) => !IsKnown(ConnOf(s, id))
    case EndParse(id, p, _) => p == ClientGone || (p.Parsed? && LosesConnection(ConnOf(s, id), p.call))
    case EndRun(_, e) => e == Broken || e == LoginRefused
    case _ => false
  }

  lemma ParseOne(s: Gateway, id: ConnId, p: Parsed, sent: bool)
    requires Enabled(s, EndParse(id, p, sent))
    ensures Next(s, EndParse(id, p, sent)).conns == s.conns[id := Settled(ConnOf(s, id), p)]
  {}

  lemma RunOne(s: Gateway, id: ConnId, e: Ending)
    requires Enabled(s, EndRun(id, e))
    ensures Next(s, EndRun(id, e)).conns == s.conns[id := Ended(ConnOf(s, id), e)]
  {}

  lemma HangupOne(s: Gateway, id: ConnId)
    requires Enabled(s, Hangup(id))
    ensures Next(s, Hangup(id)).conns == s.conns[id := Apply(ConnOf(s, id), Disconnect)]
  {}

  lemma ReadableOne(s: Gateway, id: ConnId)
    requires Enabled(s, Readable(id))
    ensures var c := ConnOf(s, id);
            Next(s, Readable(id)).conns
            == s.conns[id := Apply(c, if IsLoginOk(c) then AssignFrame(Some(s.started), false) else Disconnect)]
  {}

  lemma LateOne(s: Gateway, id: ConnId)
    requires Enabled(s, LateState(id))
    ensures Next(s, LateState(id)).conns
            == s.conns[id := Apply(ConnOf(s, id), AssignState(RPC_CALL_ENDED_FAILED, false))]
  {}

  lemma OthersStay(s: Gateway, ev: Event, id: ConnId)
    requires Enabled(s, ev) && id != ev.id
    ensures id in Next(s, ev).conns <==> id in s.conns
    ensures id in s.conns ==> Next(s, ev).conns[id] == s.conns[id]
  {
    match ev
    case EndParse(i, p, sent) => ParseOne(s, i, p, sent);
    case EndRun(i, e) => RunOne(s, i, e);
    case Readable(i) => ReadableOne(s, i);
    case Hangup(i) => HangupOne(s, i);
    case LateState(i) => LateOne(s, i);
    case _ =>
  }

  lemma ParseDrops(s: Gateway, id: ConnId, p: Parsed, sent: bool)
    requires Safe(s) && Enabled(s, EndParse(id, p, sent))
    ensures IsDown(Next(s, EndParse(id, p, sent)), id) <==> Drops(s, EndParse(id, p, sent))
  {
    HeldHere(s, id);
    var c := s.conns[id];
    DisconnectedIff(c, p);
    SettledWhere(c, p);
    assert Next(s, EndParse(id, p, sent)).conns[id] == Settled(c, p);
  }

  lemma RunDrops(s: Gateway, id: ConnId, e: Ending)
    requires Safe(s) && Enabled(s, EndRun(id, e))
    ensures IsDown(Next(s, EndRun(id, e)), id) <==> Drops(s, EndRun(id, e))
  {
    HeldHere(s, id);
    EndedWhere(s.conns[id], e);
    assert Next(s, EndRun(id, e)).conns[id] == Ended(s.conns[id], e);
  }

  lemma LateDrops(s: Gateway, id: ConnId)
    requires Safe(s) && Enabled(s, LateState(id))
    ensures IsDown(Next(s, LateState(id)), id) <==> IsDown(s, id)
  {
    assert ExpectedAt(s, id);
    LateStateKeeps(s.conns[id]);
  }

  lemma PollDrops(s: Gateway, ev: Event)
    requires Safe(s) && Enabled(s, ev) && (ev.Hangup? || ev.Readable?)
    ensures IsDown(Next(s, ev), ev.id) <==> Drops(s, ev)
  {
    HeldHere(s, ev.id);
    var c := s.conns[ev.id];
    if IsLoginOk(c) { FrameAssigned(c, s.started); }
  }

  lemma StepDrops(s: Gateway, ev: Event, id: ConnId)
    requires Safe(s) && Enabled(s, ev)
    ensures IsDown(Next(s, ev), id) <==> IsDown(s, id) || (ev.id == id && Drops(s, ev))
  {
    if ev.id != id {
      OthersStay(s, ev, id);
    } else {
      match ev
      case NewClient(_) =>
      case LateState(_) => LateDrops(s, id);
      case Hangup(_) => HeldHere(s, id); PollDrops(s, ev);
      case Readable(_) => HeldHere(s, id); PollDrops(s, ev);
      case EndParse(_, p, sent) => HeldHere(s, id); ParseDrops(s, id, p, sent);
      case EndRun(_, e) => HeldHere(s, id); RunDrops(s, id, e);
      case _ =>
    }
  }

  predicate WasDropped(s: Gateway, evs: seq<Event>, id: ConnId)
    requires IsRun(s, evs)
    decreases evs
  {
    evs != [] && ((evs[0].id == id && Drops(s, evs[0])) || WasDropped(Next(s, evs[0]), evs[1..], id))
  }

  lemma {:induction false} RunsDrop(s: Gateway, evs: seq<Event>, id: ConnId)
    requires Safe(s) && IsRun(s, evs)
    ensures IsDown(Custody.After(s, evs), id) <==> IsDown(s, id) || WasDropped(s, evs, id)
    decreases evs
  {
    if evs != [] {
      StepSafe(s, evs[0]);
      StepDrops(s, evs[0], id);
      RunsDrop(Next(s, evs[0]), evs[1..], id);
    }
  }

  /** In every run a connection is disconnected if and only if there was one of the causes: no refused call, but
      that of a login, ends it. */
  lemma DisconnectedForACause(s0: Gateway, evs: seq<Event>, id: ConnId)
    requires Initial(s0) && IsRun(s0, evs)
    ensures IsDown(Custody.After(s0, evs), id) <==> WasDropped(s0, evs, id)
  {
    InitialIsSafe(s0);
    RunsDrop(s0, evs, id);
  }

  // ----- Who is logged in

  const NOBODY := Login(None, 0, false)

  function LoginOf(c: Conn): Login { Login(c.userid, c.operPerm, c.loginFailed) }

  /** What a step makes of the login of the client id. */
  function LoginAfter(before: Login, ev: Event, id: ConnId): Login {
    if ev.id != id then before
    else match ev
         case EndRun(_, LoggedIn(userid, perm)) => Login(Some(userid), perm, false)
         case EndRun(_, Forgotten(Some(userid), perm)) => Login(Some(userid), perm, false)
         case EndRun(_, LoginRefused) => Login(None, 0, true)
         case _ => before
  }

  /** What the workers of its calls have found about a client. */
  function LoginSince(before: Login, evs: seq<Event>, id: ConnId): Login
    decreases evs
  {
    if evs == [] then before else LoginSince(LoginAfter(before, evs[0], id), evs[1..], id)
  }

  function Known(s: Gateway, id: ConnId): Login { if id in s.conns then LoginOf(s.conns[id]) else NOBODY }

  lemma EndKeepsLogin(c: Conn, e: Ending)
    requires InCall(c)
    ensures LoginOf(Ended(c, e)) == match e
                                    case LoggedIn(userid, perm) => Login(Some(userid), perm, false)
                                    case Forgotten(Some(userid), perm) => Login(Some(userid), perm, false)
                                    case LoginRefused => Login(None, 0, true)
                                    case _ => LoginOf(c)
  {}

  lemma RunLogin(s: Gateway, id: ConnId, e: Ending)
    requires Safe(s) && Enabled(s, EndRun(id, e))
    ensures Known(Next(s, EndRun(id, e)), id) == LoginAfter(Known(s, id), EndRun(id, e), id)
  {
    HeldHere(s, id);
    EndKeepsLogin(s.conns[id], e);
    assert Next(s, EndRun(id, e)).conns[id] == Ended(s.conns[id], e);
  }

  lemma ParseLogin(s: Gateway, id: ConnId, p: Parsed, sent: bool)
    requires Safe(s) && Enabled(s, EndParse(id, p, sent))
    ensures Known(Next(s, EndParse(id, p, sent)), id) == Known(s, id)
  {
    HeldHere(s, id);
    assert Next(s, EndParse(id, p, sent)).conns[id] == Settled(s.conns[id], p);
    SettledKeepsLogin(s.conns[id], p);
  }

  lemma SettledKeepsLogin(c: Conn, p: Parsed)
    requires InParser(c)
    ensures LoginOf(Settled(c, p)) == LoginOf(c)
  {}

  lemma PollLogin(s: Gateway, ev: Event)
    requires Safe(s) && Enabled(s, ev) && (ev.Hangup? || ev.Readable?)
    ensures Known(Next(s, ev), ev.id) == Known(s, ev.id)
  {
    HeldHere(s, ev.id);
  }

  lemma StepLogin(s: Gateway, ev: Event, id: ConnId)
    requires Safe(s) && Enabled(s, ev)
    ensures Known(Next(s, ev), id) == LoginAfter(Known(s, id), ev, id)
  {
    if ev.id != id {
      OthersStay(s, ev, id);
    } else {
      match ev
      case NewClient(_) =>
      case LateState(_) => assert ExpectedAt(s, id);
      case EndParse(_, p, sent) => ParseLogin(s, id, p, sent);
      case EndRun(_, e) => RunLogin(s, id, e);
      case Readable(_) => PollLogin(s, ev);
      case Hangup(_) => PollLogin(s, ev);
      case _ =>
    }
  }

  lemma {:induction false} RunsLogin(s: Gateway, evs: seq<Event>, id: ConnId)
    requires Safe(s) && IsRun(s, evs)
    ensures Known(Custody.After(s, evs), id) == LoginSince(Known(s, id), evs, id)
    decreases evs
  {
    if evs != [] {
      StepSafe(s, evs[0]);
      StepLogin(s, evs[0], id);
      RunsLogin(Next(s, evs[0]), evs[1..], id);
    }
  }

  /** In every run a client has the userid and the permission that its last login gave it, and none before. */
  lemma LoggedInAs(s0: Gateway, evs: seq<Event>, id: ConnId)
    requires Initial(s0) && IsRun(s0, evs)
    ensures Known(Custody.After(s0, evs), id) == LoginSince(NOBODY, evs, id)
  {
    InitialIsSafe(s0);
    RunsLogin(s0, evs, id);
  }
}
