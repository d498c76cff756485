/** The calls and pings that an active queue makes for one item, with one frame. */
module ActiveRun {
  import opened Strings
  import opened ServiceRpc
  import opened ActiveQueues
  import opened ActiveSync

  /** What the queue of an interceptor says when it does not take a call. */
  const GW_QUE_SIZE := -1202

  /** What a turn of the loop meets: the call or the ping is made; or the interceptor's queue refuses the
      call, which is not made then. stop is the final stop flag when it is looked at next. */
  datatype Meets = Made(fate: Fate, stop: bool) | Refused(stop: bool)

  /** The last call that was made, and whether it was a ping. */
  datatype Last = Last(ping: bool, done: Assignment)

  datatype Item = Item(mode: Mode, frame: Marks, last: Option<Last>)

  const TAKEN := Item(Calling, NEW_FRAME, None)

  predicate Fits(s: Item, x: Meets) {
    && !s.mode.Left? && (s.mode.Pinging? ==> x.Made?)
    && (x.Made? ==> !QueueProcCallToDestPool(x.fate).Never?)
  }

  /** The frame after the turn, and what is read. */
  function FrameAfter(v: Marks, x: Meets): Marks { if x.Made? then AfterDone(v, DoneOf(x.fate)) else v }

  function ReplyTo(v: Marks, x: Meets): Reply {
    if x.Made? then Reply(FrameAfter(v, x).ret, true, x.stop) else Reply(GW_QUE_SIZE, false, x.stop)
  }

  function Next(s: Item, x: Meets): Item {
    Item(Advance(s.mode, ReplyTo(s.frame, x)), FrameAfter(s.frame, x),
         if x.Made? then Some(Last(s.mode.Pinging?, DoneOf(x.fate))) else s.last)
  }

  predicate IsRun(s: Item, xs: seq<Meets>)
    decreases xs
  {
    xs != [] ==> Fits(s, xs[0]) && IsRun(Next(s, xs[0]), xs[1..])
  }

  function After(s: Item, xs: seq<Meets>): Item
    decreases xs
  {
    if xs == [] then s else After(Next(s, xs[0]), xs[1..])
  }

  // ----- The class that does this, and the frame of the handshake

  function Replies(v: Marks, xs: seq<Meets>): seq<Reply>
    decreases xs
  {
    if xs == [] then [] else [ReplyTo(v, xs[0])] + Replies(FrameAfter(v, xs[0]), xs[1..])
  }

  /** The replies that are read take the loop of the queue's thread where the run goes. */
  lemma {:induction false} SameLoop(s: Item, xs: seq<Meets>)
    ensures ModeAfter(s.mode, Replies(s.frame, xs)) == After(s, xs).mode
    decreases xs
  {
    if xs != [] {
      var rs := Replies(s.frame, xs);
      assert rs[0] == ReplyTo(s.frame, xs[0]) && rs[1..] == Replies(FrameAfter(s.frame, xs[0]), xs[1..]);
      SameLoop(Next(s, xs[0]), xs[1..]);
    }
  }

  function MadeIn(xs: seq<Meets>): seq<Fate> {
    if xs == [] then [] else MadeIn(xs[..|xs| - 1]) + if xs[|xs| - 1].Made? then [xs[|xs| - 1].fate] else []
  }

  lemma {:induction false} RunEnds(s: Item, xs: seq<Meets>, x: Meets)
    ensures IsRun(s, xs + [x]) <==> IsRun(s, xs) && Fits(After(s, xs), x)
    ensures After(s, xs + [x]) == Next(After(s, xs), x)
    decreases xs
  {
    if xs == [] {
      assert [] + [x] == [x] && [x][1..] == [];
    } else {
      assert (xs + [x])[1..] == xs[1..] + [x];
      RunEnds(Next(s, xs[0]), xs[1..], x);
    }
  }

  /** The frame is that of the handshake, after the calls that were made. */
  lemma {:induction false} SameFrame(xs: seq<Meets>)
    requires IsRun(TAKEN, xs)
    ensures AllReturn(MadeIn(xs))
    ensures var t := AfterCalls(START, MadeIn(xs)); After(TAKEN, xs).frame == Marks(t.status.value, t.diag)
    decreases |xs|
  {
    if xs != [] {
      var x, before := xs[|xs| - 1], xs[..|xs| - 1];
      assert xs == before + [x];
      RunEnds(TAKEN, before, x);
      SameFrame(before);
      if x.Made? {
        OneMore(START, MadeIn(before), x.fate);
      } else {
        assert MadeIn(xs) == MadeIn(before);
      }
    }
  }

  // ----- When the loop is left with 0

  /** Between calls the frame shows 0 exactly when the last call made was a ping that was answered 0. */
  ghost predicate Kept(s: Item) {
    match s.mode
    case Calling => s.frame.ret == 0 <==> s.last == Some(Last(true, Plain(0)))
    case Pinging => s.frame.ret == DS_NOT_AVAIL
    case Left(_) => true
  }

  lemma StepKeeps(s: Item, x: Meets)
    requires Kept(s) && Fits(s, x)
    ensures Kept(Next(s, x))
  {}

  lemma {:induction false} RunsKeep(s: Item, xs: seq<Meets>)
    requires Kept(s) && IsRun(s, xs)
    ensures Kept(After(s, xs))
    decreases xs
  {
    if xs != [] {
      StepKeeps(s, xs[0]);
      RunsKeep(Next(s, xs[0]), xs[1..]);
    }
  }

  /** The call was made and answered 0. */
  predicate Succeeds(x: Meets) { x.Made? && DoneOf(x.fate) == Plain(0) }

  /** When the call is to be made, after any calls and pings for its item: the loop is left with 0 though the
      call does not succeed, if and only if the last call made before it was a ping that was answered 0, and
      this one assigns no status. */
  lemma LeftWithOldZeroIff(xs: seq<Meets>, x: Meets)
    requires IsRun(TAKEN, xs) && After(TAKEN, xs).mode == Calling && Fits(After(TAKEN, xs), x)
    ensures After(TAKEN, xs + [x]).mode == Left(0) && !Succeeds(x)
            <==> && x.Made? && After(TAKEN, xs).last == Some(Last(true, Plain(0)))
                 && Assigned(After(TAKEN, xs).frame.diag, DoneOf(x.fate)) == None
  {
    RunsKeep(TAKEN, xs);
    RunEnds(TAKEN, xs, x);
  }

  /** A complete response decides what becomes of the item, whatever calls and pings were made before: the call is
      done with 0; it is made again after a deadlock; and what else its status stands for. */
  lemma CompleteDecides(xs: seq<Meets>, f: Fate, stop: bool, status: int)
    requires IsRun(TAKEN, xs) && After(TAKEN, xs).mode == Calling && AnsweredWith(f, status)
    ensures var s := After(TAKEN, xs + [Made(f, stop)]);
            && IsRun(TAKEN, xs + [Made(f, stop)]) && s.frame.ret == status
            && (s.mode == Left(0) <==> status == 0)
            && (status in {-6, -1101, -1205} ==> s.mode == Calling)
            && (s.mode == Pinging ==> status == -1100)
            && (status > 0 ==> s.mode == Left(status))
  {
    EndedByParsed(f.run, status, 0);
    RunEnds(TAKEN, xs, Made(f, stop));
  }

  /** A call of which some of the response came is never made again. */
  lemma PartialIsNeverMadeAgain(xs: seq<Meets>, f: Fate, stop: bool, status: int, mask: nat, more: seq<Meets>)
    requires IsRun(TAKEN, xs) && After(TAKEN, xs).mode == Calling
    requires QueueProcCallToDestPool(f).Later? && EndsWith(f.run, Parsed(status, mask)) && HasBit(mask, 4)
    ensures After(TAKEN, xs + [Made(f, stop)]).mode == Left(-1105)
    ensures IsRun(TAKEN, xs + [Made(f, stop)] + more) ==> more == []
  {
    EndedByParsed(f.run, status, mask);
    RunEnds(TAKEN, xs, Made(f, stop));
    if IsRun(TAKEN, xs + [Made(f, stop)] + more) { Cut(TAKEN, xs + [Made(f, stop)], more); }
  }

  lemma {:induction false} Cut(s: Item, xs: seq<Meets>, more: seq<Meets>)
    requires IsRun(s, xs + more)
    ensures IsRun(s, xs) && IsRun(After(s, xs), more)
    decreases xs
  {
    if xs == [] {
      assert xs + more == more;
    } else {
      assert (xs + more)[1..] == xs[1..] + more;
      Cut(Next(s, xs[0]), xs[1..], more);
    }
  }

  /** A call that finds no connection to its destination. */
  predicate CannotConnect(f: Fate) { DoneOf(f) == Final(DS_SERVER_NOT_AVAILABLE) }

  /** So a call that cannot connect, a ping that is answered, and the call again, which again cannot connect:
      the loop is left with 0, though the call was never made. */
  lemma NotDoneNorLogged(call: Fate, ping: Fate)
    requires CannotConnect(call) && DoneOf(ping) == Plain(0)
    ensures var xs := [Made(call, false), Made(ping, false), Made(call, false)];
            && IsRun(TAKEN, xs) && After(TAKEN, xs).mode == Left(0)
            && Replies(NEW_FRAME, xs)
               == [Reply(DS_NOT_AVAIL, true, false), Reply(0, true, false), Reply(0, true, false)]
  {
    var xs := [Made(call, false), Made(ping, false), Made(call, false)];
    assert xs[1..] == [Made(ping, false), Made(call, false)] && xs[1..][1..] == [Made(call, false)];
    assert xs[1..][1..][1..] == [];
    var s1 := Next(TAKEN, xs[0]);
    var s2 := Next(s1, xs[1]);
    assert s1.frame == Marks(DS_NOT_AVAIL, Some(DS_SERVER_NOT_AVAILABLE)) && s1.mode == Pinging;
    assert s2.frame == Marks(0, Some(DS_SERVER_NOT_AVAILABLE)) && s2.mode == Calling;
    assert After(s2, xs[2..]).mode == Left(0) && IsRun(s2, xs[2..]);
    assert IsRun(s1, xs[1..]) && After(s1, xs[1..]) == After(s2, xs[2..]);
    assert Replies(s2.frame, xs[2..]) == [Reply(0, true, false)];
    assert Replies(s1.frame, xs[1..]) == [Reply(0, true, false), Reply(0, true, false)];
  }

  /** And the thread of the queue does not log it. */
  method OneItem(m: ActiveQueueMonitor, xs: seq<Meets>, stopSince: bool) returns (ret: Option<int>)
    requires IsRun(TAKEN, xs)
    modifies m
    ensures ret == if After(TAKEN, xs).mode.Left? then Some(After(TAKEN, xs).mode.ret) else None
    ensures ret == Some(0) ==> m.paramsLogged == old(m.paramsLogged) + (if stopSince then 1 else 0)
    ensures ret.Some? && ret.value != 0 ==> m.paramsLogged > old(m.paramsLogged)
  {
    SameLoop(TAKEN, xs);
    ret := m.GetOneRpcAndSendIt(Replies(NEW_FRAME, xs), stopSince);
  }
}
