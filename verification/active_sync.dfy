/** The handshake between the thread of an active queue and the thread that runs its RPC. The queue
    thread takes the lock, queues the call, and takes the lock again: only the completion callback of
    the call can let it through. Then it reads the return status in the frame, which all the calls for
    one item share. */
module ActiveSync {
  import opened Strings
  import opened ServiceRpc
  import opened ActiveQueues

  /** Where the queue thread is in doProcCallOneTime(). */
  datatype Pc = Idle | HasLock | Waiting | Through

  /** When queueing a call leads to the callback: it is made by the thread that runs the RPC, later; or at
      once; or never. */
  datatype Callback = Later | AtOnce | Never

  /** A status, and the number of the call that assigned it: 0 for that of a new frame. */
  datatype Stamped = Stamped(call: nat, value: int)

  /** call is the number of the current call, pending the calls whose callback is still to come, status and
      diag what is in the frame, and before the status at the beginning of the call; ended is the status that
      the ending of the call assigned, if any, once it has ended. */
  datatype Sys = Sys(pc: Pc, locked: bool, call: nat, pending: set<nat>, status: Stamped, diag: Option<Diagnosis>,
                     before: Stamped, ended: Option<Option<int>>, lastRead: Option<Stamped>)

  datatype Event =
    | NewFrame
    | Acquire                        // the first acquire
    | QueueCall(callback: Callback)
    | Complete(call: nat, done: Assignment)  // the RPC thread may assign a status, then calls back
    | AcquireAgain                   // waitForActiveRPCcompletion()
    | ReadAndRelease

  const NEW := Stamped(0, INIT_NOT_ASSIGNED_YET)

  predicate Enabled(s: Sys, e: Event) {
    match e
    case NewFrame => s.pc == Idle
    case Acquire => s.pc == Idle && !s.locked
    case QueueCall(_) => s.pc == HasLock
    case Complete(c, _) => c in s.pending
    case AcquireAgain => s.pc == Waiting && !s.locked
    case ReadAndRelease => s.pc == Through
  }

  function Next(s: Sys, e: Event): Sys
    requires Enabled(s, e)
  {
    match e
    case NewFrame => s.(status := NEW, diag := None)
    case Acquire => s.(pc := HasLock, locked := true, call := s.call + 1, before := s.status, ended := None)
    case QueueCall(Later) => s.(pc := Waiting, pending := s.pending + {s.call})
    case QueueCall(AtOnce) => s.(pc := Waiting, locked := false, ended := Some(None))
    case QueueCall(Never) => s.(pc := Waiting)
    case Complete(c, a) =>
      var given := Assigned(s.diag, a);
      s.(locked := false, pending := s.pending - {c}, ended := Some(given), diag := DiagnosisAfter(s.diag, a),
         status := if given.Some? then Stamped(c, given.value) else s.status)
    case AcquireAgain => s.(pc := Through, locked := true)
    case ReadAndRelease => s.(pc := Idle, locked := false, lastRead := Some(s.status))
  }

  const START := Sys(Idle, false, 0, {}, NEW, None, NEW, None, None)

  predicate IsRun(s: Sys, es: seq<Event>)
    decreases es
  {
    es != [] ==> Enabled(s, es[0]) && IsRun(Next(s, es[0]), es[1..])
  }

  function After(s: Sys, es: seq<Event>): Sys
    requires IsRun(s, es)
    decreases es
  {
    if es == [] then s else After(Next(s, es[0]), es[1..])
  }

  /** Every call gets its callback. */
  predicate CallsBack(es: seq<Event>) {
    forall i :: 0 <= i < |es| ==> es[i] != QueueCall(Never)
  }

  /** The call has ended, and the frame has what its ending assigned, or what was there before it. */
  ghost predicate Ended(s: Sys) {
    && s.ended.Some? && s.before.call < s.call
    && s.status == if s.ended.value.Some? then Stamped(s.call, s.ended.value.value) else s.before
  }

  /** At most one call is pending, and then the lock is taken; the queue thread is past its wait only when
      its call has ended; between calls the lock is free. */
  ghost predicate InStep(s: Sys) {
    match s.pc
    case Idle => !s.locked && s.pending == {} && s.status.call <= s.call
    case HasLock => s.locked && s.pending == {} && s.status == s.before && s.before.call < s.call
    case Waiting =>
      if s.locked then s.pending == {s.call} && s.status == s.before && s.before.call < s.call
      else s.pending == {} && Ended(s)
    case Through => s.locked && s.pending == {} && Ended(s)
  }

  lemma StepInStep(s: Sys, e: Event)
    requires InStep(s) && Enabled(s, e) && e != QueueCall(Never)
    ensures InStep(Next(s, e))
  {}

  lemma {:induction false} RunsInStep(s: Sys, es: seq<Event>)
    requires InStep(s) && IsRun(s, es) && CallsBack(es)
    ensures InStep(After(s, es))
    decreases es
  {
    if es != [] {
      StepInStep(s, es[0]);
      RunsInStep(Next(s, es[0]), es[1..]);
    }
  }

  /** In every interleaving: the queue thread goes through its wait only after the callback of its own
      call; the lock is free between calls; a callback always finds the lock taken, so that its release
      never fails; the queue thread is never stuck; and the status that it reads is that of its own call if
      and only if the ending of the call assigned one: otherwise it is what was there before the call. */
  lemma Handshake(es: seq<Event>)
    requires IsRun(START, es) && CallsBack(es)
    ensures var s := After(START, es);
            && (Enabled(s, AcquireAgain) || s.pc == Through ==> s.call !in s.pending && s.ended.Some?)
            && (Enabled(s, ReadAndRelease) ==>
                  var read := Next(s, ReadAndRelease).lastRead;
                  && read.Some? && (read.value.call == s.call <==> s.ended.value.Some?)
                  && (s.ended.value.Some? ==> read.value.value == s.ended.value.value)
                  && (s.ended.value == None ==> read.value == s.before))
            && (s.pc == Idle ==> !s.locked && s.pending == {})
            && (forall c, a :: Enabled(s, Complete(c, a)) ==> s.locked && c == s.call)
            && (s.pc == Waiting && !Enabled(s, AcquireAgain) ==> s.call in s.pending)
  {
    RunsInStep(START, es);
  }

  /** A call without a callback stops the queue thread for ever. */
  lemma {:induction false} NoCallbackNoReturn(s: Sys, es: seq<Event>)
    requires s.pc == Waiting && s.locked && s.pending == {} && IsRun(s, es)
    ensures es == []
  {}

  // ----- What becomes of a call

  /** What a call meets: whether the state of the connection lets it begin, the gates let it through, its
      destination is open and its pool takes it; and then what the thread that runs it meets. */
  datatype Fate = Fate(stateOk: bool, allowed: bool, destOpen: bool, taken: bool, run: Run)

  /** The branches of queueProcCallToDestPool(). That of the gates fails, with a name that no longer exists,
      before it calls back; and what addRequest() returns is not looked at. */
  function QueueProcCallToDestPool(f: Fate): Callback {
    if !f.stateOk then AtOnce
    else if !f.allowed then Never
    else if !f.destOpen then AtOnce
    else if !f.taken then Never
    else Later
  }

  /** Only the thread that runs the RPC does anything to the frame. */
  function DoneOf(f: Fate): Assignment {
    if QueueProcCallToDestPool(f).Later? then DoneBy(f.run) else Nothing
  }

  /** Only a call that is let through, to an open destination whose pool takes it, is made and touches the frame;
      the callback comes at once when the connection refuses it, or its destination is closed. */
  lemma MadeIff(f: Fate)
    ensures DoneOf(f) != Nothing ==> f.stateOk && f.allowed && f.destOpen && f.taken
    ensures f.stateOk && f.allowed && f.destOpen && f.taken ==> DoneOf(f) == DoneBy(f.run)
    ensures QueueProcCallToDestPool(f) == AtOnce <==> !f.stateOk || (f.allowed && !f.destOpen)
  {}

  /** The steps of a call, in order; call is the number of the one before. */
  function CallEvents(call: nat, f: Fate): seq<Event> {
    var cb := QueueProcCallToDestPool(f);
    [Acquire, QueueCall(cb)]
    + (if cb.Later? then [Complete(call + 1, DoneBy(f.run))] else [])
    + (if cb.Never? then [] else [AcquireAgain, ReadAndRelease])
  }

  lemma {:induction false} RunsJoin(s: Sys, es: seq<Event>, fs: seq<Event>)
    requires IsRun(s, es) && IsRun(After(s, es), fs)
    ensures IsRun(s, es + fs) && After(s, es + fs) == After(After(s, es), fs)
    decreases es
  {
    if es == [] {
      assert es + fs == fs;
    } else {
      assert (es + fs)[1..] == es[1..] + fs;
      RunsJoin(Next(s, es[0]), es[1..], fs);
    }
  }

  lemma OneStep(s: Sys, a: Event)
    requires Enabled(s, a)
    ensures IsRun(s, [a]) && After(s, [a]) == Next(s, a)
  {
    assert [a][1..] == [];
  }

  lemma TwoSteps(s: Sys, a: Event, b: Event)
    requires Enabled(s, a) && Enabled(Next(s, a), b)
    ensures IsRun(s, [a, b]) && After(s, [a, b]) == Next(Next(s, a), b)
  {
    assert [a, b][1..] == [b];
    OneStep(Next(s, a), b);
  }

  /** The queue thread has a call waiting for its callback, or let through by it. */
  function Queued(s: Sys, f: Fate): Sys
    requires s.pc == Idle && !s.locked
  {
    Next(Next(s, Acquire), QueueCall(QueueProcCallToDestPool(f)))
  }

  /** Between calls, as every call leaves it. */
  ghost predicate AtRest(s: Sys) {
    s.pc == Idle && !s.locked && s.pending == {}
  }

  /** A call that comes back leaves in the frame, and reads, what it assigned or what was there. */
  lemma OneCall(s: Sys, f: Fate)
    requires AtRest(s) && !QueueProcCallToDestPool(f).Never?
    ensures var es, a := CallEvents(s.call, f), Assigned(s.diag, DoneOf(f));
            && IsRun(s, es) && AtRest(After(s, es)) && After(s, es).call == s.call + 1
            && After(s, es).lastRead == Some(After(s, es).status)
            && After(s, es).status == (if a.Some? then Stamped(s.call + 1, a.value) else s.status)
            && After(s, es).diag == DiagnosisAfter(s.diag, DoneOf(f))
  {
    var cb, t := QueueProcCallToDestPool(f), Queued(s, f);
    TwoSteps(s, Acquire, QueueCall(cb));
    var begin := [Acquire, QueueCall(cb)];
    var done := if cb.Later? then [Complete(s.call + 1, DoneBy(f.run))] else [];
    var u := if cb.Later? then Next(t, done[0]) else t;
    if cb.Later? { OneStep(t, done[0]); }
    RunsJoin(s, begin, done);
    TwoSteps(u, AcquireAgain, ReadAndRelease);
    RunsJoin(s, begin + done, [AcquireAgain, ReadAndRelease]);
  }

  /** The queue thread comes back from a call exactly when the connection refuses the call itself, or the
      gates let it through and its destination is closed or takes it. */
  lemma ReturnsIff(s: Sys, f: Fate)
    requires AtRest(s)
    ensures (exists es :: IsRun(Queued(s, f), es) && After(Queued(s, f), es).pc == Idle)
            <==> !f.stateOk || (f.allowed && (!f.destOpen || f.taken))
  {
    var t, cb := Queued(s, f), QueueProcCallToDestPool(f);
    if cb == Never {
      forall es | IsRun(t, es) ensures After(t, es).pc != Idle {
        NoCallbackNoReturn(t, es);
      }
    } else if cb == AtOnce {
      TwoSteps(t, AcquireAgain, ReadAndRelease);
    } else {
      var u := Next(t, Complete(t.call, Nothing));
      TwoSteps(u, AcquireAgain, ReadAndRelease);
      var begin := [Complete(t.call, Nothing)];
      OneStep(t, begin[0]);
      RunsJoin(t, begin, [AcquireAgain, ReadAndRelease]);
    }
  }

  // ----- The statuses read by the calls that share a frame

  predicate AllReturn(fs: seq<Fate>) {
    forall i :: 0 <= i < |fs| ==> !QueueProcCallToDestPool(fs[i]).Never?
  }

  function CallsEvents(call: nat, fs: seq<Fate>): seq<Event>
    decreases fs
  {
    if fs == [] then [] else CallEvents(call, fs[0]) + CallsEvents(call + 1, fs[1..])
  }

  /** No call had a final diagnosis. */
  predicate NoFinal(fs: seq<Fate>) {
    forall i :: 0 <= i < |fs| ==> !DoneOf(fs[i]).Final?
  }

  /** The call f assigns a status, after the calls fs with its frame: every response does, and a final
      diagnosis does when the frame had none and no call before had one. */
  predicate Assigns(diag: Option<Diagnosis>, fs: seq<Fate>, f: Fate) {
    DoneOf(f).Plain? || (DoneOf(f).Final? && diag == None && NoFinal(fs))
  }

  /** The status assigned by the last of the calls that assigned one. */
  function LastAssigned(init: int, diag: Option<Diagnosis>, fs: seq<Fate>): int {
    if fs == [] then init
    else
      var f, before := fs[|fs| - 1], fs[..|fs| - 1];
      if Assigns(diag, before, f) then Assigned(None, DoneOf(f)).value else LastAssigned(init, diag, before)
  }

  function AfterCalls(s: Sys, fs: seq<Fate>): Sys
    requires AtRest(s) && AllReturn(fs)
  {
    CallsRun(s, fs);
    After(s, CallsEvents(s.call, fs))
  }

  lemma {:induction false} CallsRun(s: Sys, fs: seq<Fate>)
    requires AtRest(s) && AllReturn(fs)
    ensures var es := CallsEvents(s.call, fs);
            && IsRun(s, es) && AtRest(After(s, es)) && After(s, es).call == s.call + |fs|
            && (fs != [] ==> After(s, es).lastRead == Some(After(s, es).status))
    decreases fs
  {
    if fs != [] {
      OneCall(s, fs[0]);
      var t := After(s, CallEvents(s.call, fs[0]));
      CallsRun(t, fs[1..]);
      RunsJoin(s, CallEvents(s.call, fs[0]), CallsEvents(s.call + 1, fs[1..]));
      if |fs| == 1 { assert CallsEvents(s.call + 1, fs[1..]) == []; }
    }
  }

  lemma {:induction false} EventsJoin(call: nat, fs: seq<Fate>, f: Fate)
    ensures CallsEvents(call, fs + [f]) == CallsEvents(call, fs) + CallEvents(call + |fs|, f)
    decreases fs
  {
    if fs == [] {
      assert [] + [f] == [f] && [f][1..] == [];
      assert CallsEvents(call + 1, []) == [];
    } else {
      assert (fs + [f])[1..] == fs[1..] + [f];
      EventsJoin(call + 1, fs[1..], f);
    }
  }

  /** The last call. */
  lemma OneMore(s: Sys, fs: seq<Fate>, f: Fate)
    requires AtRest(s) && AllReturn(fs) && AllReturn(fs + [f]) && !QueueProcCallToDestPool(f).Never?
    ensures var t, a := AfterCalls(s, fs), Assigned(AfterCalls(s, fs).diag, DoneOf(f));
            && AfterCalls(s, fs + [f]).status == (if a.Some? then Stamped(s.call + |fs| + 1, a.value) else t.status)
            && AfterCalls(s, fs + [f]).diag == DiagnosisAfter(t.diag, DoneOf(f))
  {
    CallsRun(s, fs);
    var t := AfterCalls(s, fs);
    OneCall(t, f);
    EventsJoin(s.call, fs, f);
    RunsJoin(s, CallsEvents(s.call, fs), CallEvents(t.call, f));
  }

  /** After any calls with one frame the queue thread has read what the last call that assigned a status
      has assigned, or what was in the frame when none did. */
  lemma {:induction false} ReadsLastAssigned(s: Sys, fs: seq<Fate>)
    requires AtRest(s) && AllReturn(fs)
    ensures AfterCalls(s, fs).status.value == LastAssigned(s.status.value, s.diag, fs)
    ensures AfterCalls(s, fs).diag == None <==> s.diag == None && NoFinal(fs)
    decreases |fs|
  {
    if fs != [] {
      var f, before := fs[|fs| - 1], fs[..|fs| - 1];
      assert fs == before + [f];
      ReadsLastAssigned(s, before);
      OneMore(s, before, f);
    }
  }

  /** The queue thread reads the status of its own call, the last of any calls with a new frame, if and only
      if a response was given to it, or it had the first final diagnosis of them all. */
  lemma ReadsOwnIff(fs: seq<Fate>, f: Fate)
    requires AllReturn(fs) && AllReturn(fs + [f]) && !QueueProcCallToDestPool(f).Never?
    ensures AfterCalls(START, fs + [f]).status.call == |fs| + 1
            <==> DoneOf(f).Plain? || (DoneOf(f).Final? && NoFinal(fs))
  {
    ReadsLastAssigned(START, fs);
    OneMore(START, fs, f);
    NotYet(START, fs);
  }

  /** The call is made, and its destination sends a complete response with the status. */
  ghost predicate AnsweredWith(f: Fate, status: int) {
    f.stateOk && f.allowed && f.destOpen && f.taken && EndsWith(f.run, Parsed(status, 0))
  }

  /** The status of a complete response reaches the queue thread, whatever was in the frame. */
  lemma CompleteIsRead(s: Sys, fs: seq<Fate>, f: Fate, status: int)
    requires AtRest(s) && AllReturn(fs) && AllReturn(fs + [f]) && AnsweredWith(f, status)
    ensures AfterCalls(s, fs + [f]).status == Stamped(s.call + |fs| + 1, status)
  {
    EndedByParsed(f.run, status, 0);
    OneMore(s, fs, f);
  }

  lemma {:induction false} NotYet(s: Sys, fs: seq<Fate>)
    requires AtRest(s) && AllReturn(fs) && s.status.call <= s.call
    ensures AfterCalls(s, fs).status.call <= s.call + |fs|
    decreases |fs|
  {
    if fs != [] {
      var f, before := fs[|fs| - 1], fs[..|fs| - 1];
      assert fs == before + [f];
      NotYet(s, before);
      OneMore(s, before, f);
    }
  }

  /** A call to a closed destination, which the code diagnoses as DS_NOT_AVAIL without assigning it. */
  predicate FindsClosed(f: Fate) {
    f.stateOk && f.allowed && !f.destOpen
  }

  /** So a first call that finds its destination closed reads the status of a new frame and is dropped,
      where DS_NOT_AVAIL would have been followed by pings. */
  lemma ClosedFirstIsDropped(closed: Fate)
    requires FindsClosed(closed)
    ensures var es := CallEvents(0, closed);
            IsRun(START, es) && After(START, es).lastRead == Some(NEW)
    ensures VerdictOn(NEW.value) == Drop && VerdictOn(DS_NOT_AVAIL) == Ping
  {
    OneCall(START, closed);
  }

  /** And one that follows a call that timed out reads that call's status, and is tried again. */
  lemma ClosedReadsAnother(timedOut: Fate, closed: Fate)
    requires FindsClosed(closed) && DoneOf(timedOut) == Plain(DS_RPC_TIMEOUT)
    ensures var es := CallEvents(0, timedOut) + CallEvents(1, closed);
            && IsRun(START, es) && After(START, es).call == 2
            && After(START, es).lastRead == Some(Stamped(1, DS_RPC_TIMEOUT)) && VerdictOn(DS_RPC_TIMEOUT) == Retry
  {
    OneCall(START, timedOut);
    var t := After(START, CallEvents(0, timedOut));
    OneCall(t, closed);
    RunsJoin(START, CallEvents(0, timedOut), CallEvents(1, closed));
  }
}
