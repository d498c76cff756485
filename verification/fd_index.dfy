/** The index from socket descriptors to client connections, while threads create connections and
    disconnect them, and the operating system gives closed descriptors out again. */
module FdIndex {

  type ConnId = nat
  type Tid = nat
  type Fd = nat

  /** NEW: the socket exists; LISTED: the connection is in the index; UNLISTED: it has been removed;
      SHUT: its socket is closed. */
  datatype Stage = NEW | LISTED | UNLISTED | SHUT

  /** gone is STATE_DISCONNECTING. */
  datatype Conn = Conn(fd: Fd, stage: Stage, gone: bool)

  /** Where a thread is in processDisconnect(): past the test of the state; past the assignment of the
      state, with its copy of the descriptor; past the removal from the index. */
  datatype Pc = AtMark(conn: ConnId) | AtRemove(conn: ConnId, fd: Fd) | AtClose(conn: ConnId)

  datatype Sys = Sys(conns: map<ConnId, Conn>, dict: map<Fd, ConnId>, threads: map<Tid, Pc>)

  datatype Event =
    | Open(conn: ConnId, fd: Fd)      // accept() or dup() gives a descriptor that is not in use
    | Register(conn: ConnId)          // the end of __init__()
    | Check(t: Tid, conn: ConnId)
    | Mark(t: Tid)
    | Remove(t: Tid)
    | Close(t: Tid)

  predicate InUse(s: Sys, fd: Fd) {
    exists c :: c in s.conns && s.conns[c].fd == fd && s.conns[c].stage != SHUT
  }

  predicate Enabled(s: Sys, e: Event) {
    match e
    case Open(c, fd) => c !in s.conns && !InUse(s, fd)
    case Register(c) => c in s.conns && s.conns[c].stage == NEW
    case Check(t, c) => t !in s.threads && c in s.conns && s.conns[c].stage != NEW
    case Mark(t) => t in s.threads && s.threads[t].AtMark? && s.threads[t].conn in s.conns
    case Remove(t) => t in s.threads && s.threads[t].AtRemove? && s.threads[t].conn in s.conns
    case Close(t) => t in s.threads && s.threads[t].AtClose? && s.threads[t].conn in s.conns
  }

  function Staged(s: Sys, c: ConnId, stage: Stage): map<ConnId, Conn>
    requires c in s.conns
  {
    s.conns[c := s.conns[c].(stage := stage)]
  }

  function Next(s: Sys, e: Event): Sys
    requires Enabled(s, e)
  {
    match e
    case Open(c, fd) => s.(conns := s.conns[c := Conn(fd, NEW, false)])
    case Register(c) => s.(conns := Staged(s, c, LISTED), dict := s.dict[s.conns[c].fd := c])
    case Check(t, c) => if s.conns[c].gone then s else s.(threads := s.threads[t := AtMark(c)])
    case Mark(t) =>
      var c := s.threads[t].conn;
      var marked := s.conns[c := s.conns[c].(gone := true)];
      if s.conns[c].stage == SHUT
      then s.(conns := marked, threads := s.threads - {t})   // no socket any more: nothing to close
      else s.(conns := marked, threads := s.threads[t := AtRemove(c, s.conns[c].fd)])
    case Remove(t) =>
      var c := s.threads[t].conn;
      s.(dict := s.dict - {s.threads[t].fd}, threads := s.threads[t := AtClose(c)],
         conns := if s.conns[c].stage == LISTED then Staged(s, c, UNLISTED) else s.conns)
    case Close(t) =>
      s.(conns := Staged(s, s.threads[t].conn, SHUT), threads := s.threads - {t})
  }

  /** Each connection is being disconnected by one thread at most, as when it has one owner. */
  predicate OneOwner(s: Sys, e: Event) {
    e.Check? ==> forall t :: t in s.threads ==> s.threads[t].conn != e.conn
  }

  // ----- The index is exact

  /** No two connections have the same open descriptor. */
  ghost predicate DistinctFds(s: Sys) {
    forall c, d :: c in s.conns && d in s.conns && c != d && s.conns[c].stage != SHUT && s.conns[d].stage != SHUT ==>
      s.conns[c].fd != s.conns[d].fd
  }

  /** What the index holds is listed connections, each under its own descriptor. */
  ghost predicate Entries(s: Sys) {
    forall fd :: fd in s.dict ==>
      s.dict[fd] in s.conns && s.conns[s.dict[fd]].stage == LISTED && s.conns[s.dict[fd]].fd == fd
  }

  /** It holds all of them. */
  ghost predicate AllListed(s: Sys) {
    forall c :: c in s.conns && s.conns[c].stage == LISTED ==>
      s.conns[c].fd in s.dict && s.dict[s.conns[c].fd] == c
  }

  ghost predicate ThreadOk(s: Sys, t: Tid)
    requires t in s.threads
  {
    var c := s.threads[t].conn;
    && c in s.conns && s.conns[c].stage != NEW
    && match s.threads[t]
       case AtMark(_) => true
       case AtRemove(_, fd) => s.conns[c].gone && s.conns[c].fd == fd
       case AtClose(_) => s.conns[c].gone && s.conns[c].stage != LISTED
  }

  predicate Removing(s: Sys, t: Tid, c: ConnId) { t in s.threads && s.threads[t].AtRemove? && s.threads[t].conn == c }

  predicate Closing(s: Sys, t: Tid, c: ConnId) { t in s.threads && s.threads[t] == AtClose(c) }

  /** A connection that is half disconnected has a thread that goes on with it. */
  ghost predicate Attended(s: Sys, c: ConnId)
    requires c in s.conns
  {
    && (s.conns[c].stage == LISTED && s.conns[c].gone ==> exists t :: Removing(s, t, c))
    && (s.conns[c].stage == UNLISTED ==> exists t :: Closing(s, t, c))
  }

  predicate StageOk(c: Conn) {
    if c.gone then c.stage != NEW else c.stage == NEW || c.stage == LISTED
  }

  /** What every step keeps, whatever the threads do. */
  ghost predicate Sound(s: Sys) {
    && DistinctFds(s) && Entries(s)
    && (forall t :: t in s.threads ==> ThreadOk(s, t))
    && (forall c :: c in s.conns ==> StageOk(s.conns[c]) && Attended(s, c))
  }

  /** u may come to remove an entry that is not its own: it is past the test of the state, its connection is
      not closed and t is disconnecting it too; or it is about to remove and its connection is closed. */
  predicate Exposed(s: Sys, t: Tid, u: Tid) {
    && t in s.threads && u in s.threads && s.threads[u].conn in s.conns
    && var shut := s.conns[s.threads[u].conn].stage == SHUT;
       var other := t != u && s.threads[t].conn == s.threads[u].conn;
       match s.threads[u]
       case AtMark(_) => other && !shut
       case AtRemove(_, _) => other || shut
       case AtClose(_) => false
  }

  ghost predicate Clear(s: Sys) {
    forall t, u :: t in s.threads && u in s.threads && s.threads[u].conn in s.conns ==> !Exposed(s, t, u)
  }

  ghost predicate Safe(s: Sys) {
    Sound(s) && Clear(s) && AllListed(s)
  }

  // ----- What every step keeps

  lemma OpenSound(s: Sys, c: ConnId, fd: Fd)
    requires Sound(s) && Enabled(s, Open(c, fd))
    ensures Sound(Next(s, Open(c, fd)))
  {
    var r := Next(s, Open(c, fd));
    forall x | x in r.conns ensures Attended(r, x) { StillAttended(s, r, x); }
  }

  /** A step that leaves a connection, and what its threads do, as they are. */
  lemma StillAttended(s: Sys, r: Sys, x: ConnId)
    requires x in r.conns && (x in s.conns ==> Attended(s, x))
    requires if x in s.conns then r.conns[x] == s.conns[x] else r.conns[x].stage == NEW
    requires forall t :: t in s.threads && s.threads[t].conn == x && !s.threads[t].AtMark? ==>
               t in r.threads && r.threads[t] == s.threads[t]
    ensures Attended(r, x)
  {
    if x in s.conns {
      if s.conns[x].stage == LISTED && s.conns[x].gone {
        var t :| Removing(s, t, x);
        assert Removing(r, t, x);
      }
      if s.conns[x].stage == UNLISTED {
        var t :| Closing(s, t, x);
        assert Closing(r, t, x);
      }
    }
  }

  lemma RegisterSound(s: Sys, c: ConnId)
    requires Sound(s) && Enabled(s, Register(c))
    ensures Sound(Next(s, Register(c)))
  {
    var r := Next(s, Register(c));
    forall x | x in r.conns ensures Attended(r, x) {
      if x != c { StillAttended(s, r, x); }
    }
  }

  lemma CheckSound(s: Sys, t: Tid, c: ConnId)
    requires Sound(s) && Enabled(s, Check(t, c))
    ensures Sound(Next(s, Check(t, c)))
  {
    var r := Next(s, Check(t, c));
    forall x | x in r.conns ensures Attended(r, x) { StillAttended(s, r, x); }
  }

  lemma MarkSound(s: Sys, t: Tid)
    requires Sound(s) && Enabled(s, Mark(t))
    ensures Sound(Next(s, Mark(t)))
  {
    var r, c := Next(s, Mark(t)), s.threads[t].conn;
    assert ThreadOk(s, t);
    forall u | u in r.threads ensures ThreadOk(r, u) { if u != t { assert ThreadOk(s, u); } }
    forall x | x in r.conns ensures Attended(r, x) {
      if x != c {
        StillAttended(s, r, x);
      } else if s.conns[c].stage == LISTED {
        assert Removing(r, t, c);
      } else if s.conns[c].stage == UNLISTED {
        var u :| Closing(s, u, c);
        assert Closing(r, u, c);
      }
    }
  }

  lemma RemoveSound(s: Sys, t: Tid)
    requires Sound(s) && Enabled(s, Remove(t))
    ensures Sound(Next(s, Remove(t)))
  {
    var r, c := Next(s, Remove(t)), s.threads[t].conn;
    assert ThreadOk(s, t);
    forall u | u in r.threads ensures ThreadOk(r, u) { if u != t { assert ThreadOk(s, u); } }
    forall x | x in r.conns ensures Attended(r, x) {
      if x != c { StillAttended(s, r, x); } else { assert Closing(r, t, c); }
    }
  }

  lemma CloseSound(s: Sys, t: Tid)
    requires Sound(s) && Enabled(s, Close(t))
    ensures Sound(Next(s, Close(t)))
  {
    var r, c := Next(s, Close(t)), s.threads[t].conn;
    assert ThreadOk(s, t);
    forall u | u in r.threads ensures ThreadOk(r, u) { assert ThreadOk(s, u); }
    forall x | x in r.conns ensures Attended(r, x) { if x != c { StillAttended(s, r, x); } }
  }

  lemma StepSound(s: Sys, e: Event)
    requires Sound(s) && Enabled(s, e)
    ensures Sound(Next(s, e))
  {
    match e
    case Open(c, fd) => OpenSound(s, c, fd);
    case Register(c) => RegisterSound(s, c);
    case Check(t, c) => CheckSound(s, t, c);
    case Mark(t) => MarkSound(s, t);
    case Remove(t) => RemoveSound(s, t);
    case Close(t) => CloseSound(s, t);
  }

  // ----- What steps of connections with one owner keep

  /** A thread that is about to remove has its connection for itself. */
  lemma OwnEntry(s: Sys, t: Tid)
    requires Sound(s) && Clear(s) && Enabled(s, Remove(t))
    ensures RemovesOwn(s, t) && s.conns[s.threads[t].conn].stage != SHUT
    ensures forall u :: u in s.threads && u != t ==> s.threads[u].conn != s.threads[t].conn
  {
    assert ThreadOk(s, t) && !Exposed(s, t, t);
    forall u | u in s.threads && u != t ensures s.threads[u].conn != s.threads[t].conn {
      assert !Exposed(s, u, t);
    }
  }

  lemma StepClear(s: Sys, e: Event)
    requires Sound(s) && Clear(s) && Enabled(s, e) && OneOwner(s, e)
    ensures Clear(Next(s, e))
  {
    var r := Next(s, e);
    forall t, u | t in r.threads && u in r.threads && r.threads[u].conn in r.conns ensures !Exposed(r, t, u) {
      match e {
        case Open(_, _) => assert ThreadOk(s, u) && !Exposed(s, t, u);
        case Register(_) => assert ThreadOk(s, u) && !Exposed(s, t, u);
        case Check(v, c) => CheckClear(s, v, c, t, u);
        case Mark(v) => MarkClear(s, v, t, u);
        case Remove(v) => RemoveClear(s, v, t, u);
        case Close(v) => CloseClear(s, v, t, u);
      }
    }
  }

  lemma CheckClear(s: Sys, v: Tid, c: ConnId, t: Tid, u: Tid)
    requires Sound(s) && Clear(s) && Enabled(s, Check(v, c)) && OneOwner(s, Check(v, c))
    ensures !Exposed(Next(s, Check(v, c)), t, u)
  {
    if t in s.threads && u in s.threads { assert !Exposed(s, t, u); }
  }

  lemma MarkClear(s: Sys, v: Tid, t: Tid, u: Tid)
    requires Sound(s) && Clear(s) && Enabled(s, Mark(v))
    ensures !Exposed(Next(s, Mark(v)), t, u)
  {
    if t in s.threads && u in s.threads { assert ThreadOk(s, v) && !Exposed(s, t, u); }
  }

  lemma RemoveClear(s: Sys, v: Tid, t: Tid, u: Tid)
    requires Sound(s) && Clear(s) && Enabled(s, Remove(v))
    ensures !Exposed(Next(s, Remove(v)), t, u)
  {
    if t in s.threads && u in s.threads { assert ThreadOk(s, v) && !Exposed(s, t, u); }
  }

  lemma CloseClear(s: Sys, v: Tid, t: Tid, u: Tid)
    requires Sound(s) && Clear(s) && Enabled(s, Close(v))
    ensures !Exposed(Next(s, Close(v)), t, u)
  {
    if t in s.threads && u in s.threads { assert !Exposed(s, t, u) && !Exposed(s, v, u); }
  }

  lemma StepSafe(s: Sys, e: Event)
    requires Safe(s) && Enabled(s, e) && OneOwner(s, e)
    ensures Safe(Next(s, e))
  {
    StepSound(s, e);
    StepClear(s, e);
    if e.Remove? { OwnEntry(s, e.t); }
    if e.Open? { assert !InUse(s, e.fd); }
    ListedStep(s, e);
  }

  lemma ListedStep(s: Sys, e: Event)
    requires Safe(s) && Enabled(s, e) && (e.Remove? ==> RemovesOwn(s, e.t))
    ensures AllListed(Next(s, e))
  {
    if e.Mark? { assert ThreadOk(s, e.t); }
    if e.Remove? { assert ThreadOk(s, e.t); }
    if e.Close? { assert ThreadOk(s, e.t); }
  }

  // ----- Over whole runs

  predicate IsRun(s: Sys, es: seq<Event>)
    decreases es
  {
    es != [] ==> Enabled(s, es[0]) && IsRun(Next(s, es[0]), es[1..])
  }

  function After(s: Sys, es: seq<Event>): Sys
    requires IsRun(s, es)
    decreases es
  {
    if es == [] then s else After(Next(s, es[0]), es[1..])
  }

  /** No connection is being disconnected by two threads at any time of the run. */
  ghost predicate Owned(s: Sys, es: seq<Event>)
    requires IsRun(s, es)
    decreases es
  {
    es != [] ==> OneOwner(s, es[0]) && Owned(Next(s, es[0]), es[1..])
  }

  lemma {:induction false} RunsSafe(s: Sys, es: seq<Event>)
    requires Safe(s) && IsRun(s, es) && Owned(s, es)
    ensures Safe(After(s, es))
    decreases es
  {
    if es != [] {
      StepSafe(s, es[0]);
      RunsSafe(Next(s, es[0]), es[1..]);
    }
  }

  const START := Sys(map[], map[], map[])

  /** In every interleaving a connection that is registered and not disconnecting is found under its own
      descriptor, what is found under a descriptor has it, and a disconnection removes no entry but its own. */
  lemma IndexIsExact(es: seq<Event>)
    requires IsRun(START, es) && Owned(START, es)
    ensures var s := After(START, es);
            && (forall c :: c in s.conns && !s.conns[c].gone && s.conns[c].stage != NEW ==>
                  s.conns[c].fd in s.dict && s.dict[s.conns[c].fd] == c)
            && (forall fd :: fd in s.dict ==> s.dict[fd] in s.conns && s.conns[s.dict[fd]].fd == fd)
            && (forall t :: Enabled(s, Remove(t)) ==>
                  s.threads[t].fd in s.dict && s.dict[s.threads[t].fd] == s.threads[t].conn)
  {
    RunsSafe(START, es);
    var s := After(START, es);
    forall t | Enabled(s, Remove(t))
      ensures s.threads[t].fd in s.dict && s.dict[s.threads[t].fd] == s.threads[t].conn
    {
      assert ThreadOk(s, t);
      OwnEntry(s, t);
      NotUnlisted(s, t);
    }
  }

  /** The only thread of a connection is about to remove it, so nobody has. */
  lemma NotUnlisted(s: Sys, t: Tid)
    requires Sound(s) && Enabled(s, Remove(t))
    requires forall u :: u in s.threads && u != t ==> s.threads[u].conn != s.threads[t].conn
    requires s.conns[s.threads[t].conn].stage != SHUT
    ensures s.conns[s.threads[t].conn].stage == LISTED
  {
    var c := s.threads[t].conn;
    assert ThreadOk(s, t) && Attended(s, c);
    assert forall u :: !Closing(s, u, c);
  }

  // ----- One owner is needed

  /** The removal of t is of the entry of its own connection, or of none. */
  predicate RemovesOwn(s: Sys, t: Tid)
    requires Enabled(s, Remove(t))
  {
    s.threads[t].fd in s.dict ==> s.dict[s.threads[t].fd] == s.threads[t].conn
  }

  /** Every removal of the run is. */
  predicate OwnRemovals(s: Sys, es: seq<Event>)
    requires IsRun(s, es)
    decreases es
  {
    es != [] ==> (es[0].Remove? ==> RemovesOwn(s, es[0].t)) && OwnRemovals(Next(s, es[0]), es[1..])
  }

  /** A continuation of s in which no connection gets a second thread, and yet an entry of another is removed. */
  ghost predicate Wrong(s: Sys, es: seq<Event>) {
    IsRun(s, es) && Owned(s, es) && !OwnRemovals(s, es)
  }

  lemma {:induction false} ClearRemovesOwn(s: Sys, es: seq<Event>)
    requires Sound(s) && Clear(s) && IsRun(s, es) && Owned(s, es)
    ensures OwnRemovals(s, es)
    decreases es
  {
    if es != [] {
      if es[0].Remove? { OwnEntry(s, es[0].t); }
      StepSound(s, es[0]);
      StepClear(s, es[0]);
      ClearRemovesOwn(Next(s, es[0]), es[1..]);
    }
  }

  lemma {:induction false} RunsSound(s: Sys, es: seq<Event>)
    requires Sound(s) && IsRun(s, es)
    ensures Sound(After(s, es))
    decreases es
  {
    if es != [] {
      StepSound(s, es[0]);
      RunsSound(Next(s, es[0]), es[1..]);
    }
  }

  /** From every state that can be reached, every continuation in which no connection gets a second thread
      removes only its own entries, if and only if no thread is exposed there. */
  lemma OwnRemovalsIff(before: seq<Event>)
    requires IsRun(START, before)
    ensures var s := After(START, before);
            (forall es :: !Wrong(s, es)) <==> Clear(s)
  {
    RunsSound(START, before);
    ContinuationsIff(After(START, before));
  }

  lemma ContinuationsIff(s: Sys)
    requires Sound(s)
    ensures (forall es :: !Wrong(s, es)) <==> Clear(s)
  {
    if Clear(s) {
      forall es ensures !Wrong(s, es) {
        if IsRun(s, es) && Owned(s, es) { ClearRemovesOwn(s, es); }
      }
    } else {
      var t, u :| t in s.threads && u in s.threads && s.threads[u].conn in s.conns && Exposed(s, t, u);
      var _ := ExposedRemovesAnother(s, t, u);
    }
  }

  lemma {:induction false} FreshId(s: set<nat>) returns (d: nat)
    ensures forall c :: c in s ==> c < d
  {
    d := 0;
    if s != {} {
      var c :| c in s;
      assert forall x :: x in s ==> x == c || x in s - {c};
      d := FreshId(s - {c});
      if d <= c { d := c + 1; }
    }
  }

  lemma First(s: Sys, e: Event, es: seq<Event>) returns (fs: seq<Event>)
    requires Enabled(s, e) && OneOwner(s, e) && Wrong(Next(s, e), es)
    ensures Wrong(s, fs)
  {
    fs := [e] + es;
    assert fs[1..] == es;
  }

  /** The entry of another connection is removed now. */
  lemma RemoveNow(s: Sys, u: Tid) returns (es: seq<Event>)
    requires Enabled(s, Remove(u)) && !RemovesOwn(s, u)
    ensures Wrong(s, es)
  {
    es := [Remove(u)];
    assert es[1..] == [];
  }

  /** A thread that is still to remove the entry of a closed connection: the descriptor is free, or comes to
      be, another connection gets it, and loses its entry. */
  lemma ClosedRemovesAnother(s: Sys, u: Tid, c: ConnId) returns (es: seq<Event>)
    requires Sound(s) && Removing(s, u, c) && c in s.conns && s.conns[c].stage == SHUT
    ensures Wrong(s, es)
  {
    assert ThreadOk(s, u);
    var fd := s.conns[c].fd;
    if fd in s.dict {
      es := RemoveNow(s, u);
    } else if InUse(s, fd) {
      var x :| x in s.conns && s.conns[x].fd == fd && s.conns[x].stage != SHUT;
      es := UsedRemovesAnother(s, u, c, x);
    } else {
      es := FreeRemovesAnother(s, u, c);
    }
  }

  lemma FreeRemovesAnother(s: Sys, u: Tid, c: ConnId) returns (es: seq<Event>)
    requires Sound(s) && Removing(s, u, c) && c in s.conns && !InUse(s, s.conns[c].fd)
    ensures Wrong(s, es)
  {
    assert ThreadOk(s, u);
    var fd := s.conns[c].fd;
    var d := FreshId(s.conns.Keys);
    var s1 := Next(s, Open(d, fd));
    var s2 := Next(s1, Register(d));
    es := RemoveNow(s2, u);
    es := First(s1, Register(d), es);
    es := First(s, Open(d, fd), es);
  }

  /** x has the descriptor now: it gets its entry, or it is closed first. */
  lemma UsedRemovesAnother(s: Sys, u: Tid, c: ConnId, x: ConnId) returns (es: seq<Event>)
    requires Sound(s) && Removing(s, u, c) && c in s.conns && s.conns[c].stage == SHUT
    requires x in s.conns && s.conns[x].fd == s.conns[c].fd && s.conns[x].stage != SHUT
    requires s.conns[c].fd !in s.dict
    ensures Wrong(s, es)
  {
    assert ThreadOk(s, u) && Attended(s, x);
    match s.conns[x].stage
    case NEW =>
      es := RemoveNow(Next(s, Register(x)), u);
      es := First(s, Register(x), es);
    case UNLISTED =>
      var v :| Closing(s, v, x);
      es := ClosedThenFree(s, u, c, x, v);
    case LISTED =>
      if s.conns[x].gone {
        var v :| Removing(s, v, x);
        es := UnlistedThenFree(s, u, c, x, v);
      } else if v :| v in s.threads && s.threads[v].conn == x {
        assert ThreadOk(s, v);
        MarkSound(s, v);
        es := UnlistedThenFree(Next(s, Mark(v)), u, c, x, v);
        es := First(s, Mark(v), es);
      } else {
        var v := FreshId(s.threads.Keys);
        CheckSound(s, v, x);
        var s1 := Next(s, Check(v, x));
        MarkSound(s1, v);
        es := UnlistedThenFree(Next(s1, Mark(v)), u, c, x, v);
        es := First(s1, Mark(v), es);
        es := First(s, Check(v, x), es);
      }
    }

  lemma ClosedThenFree(s: Sys, u: Tid, c: ConnId, x: ConnId, v: Tid) returns (es: seq<Event>)
    requires Sound(s) && Removing(s, u, c) && c in s.conns && s.conns[c].stage == SHUT && Closing(s, v, x)
    requires x in s.conns && s.conns[x].fd == s.conns[c].fd && s.conns[x].stage != SHUT
    ensures Wrong(s, es)
  {
    CloseSound(s, v);
    var r := Next(s, Close(v));
    assert !InUse(r, s.conns[c].fd);
    es := FreeRemovesAnother(r, u, c);
    es := First(s, Close(v), es);
  }

  lemma UnlistedThenFree(s: Sys, u: Tid, c: ConnId, x: ConnId, v: Tid) returns (es: seq<Event>)
    requires Sound(s) && Removing(s, u, c) && c in s.conns && s.conns[c].stage == SHUT && Removing(s, v, x)
    requires x in s.conns && s.conns[x].fd == s.conns[c].fd && s.conns[x].stage == LISTED
    ensures Wrong(s, es)
  {
    RemoveSound(s, v);
    es := ClosedThenFree(Next(s, Remove(v)), u, c, x, v);
    es := First(s, Remove(v), es);
  }

  /** t closes the connection that u is still to remove. */
  lemma OtherCloses(s: Sys, t: Tid, u: Tid, c: ConnId) returns (es: seq<Event>)
    requires Sound(s) && Removing(s, u, c) && t in s.threads && t != u && s.threads[t].conn == c
    requires c in s.conns && s.conns[c].stage != SHUT
    ensures Wrong(s, es)
    decreases if s.threads[t].AtMark? then 2 else if s.threads[t].AtRemove? then 1 else 0
  {
    assert ThreadOk(s, t);
    match s.threads[t]
    case AtMark(_) =>
      MarkSound(s, t);
      es := OtherCloses(Next(s, Mark(t)), t, u, c);
      es := First(s, Mark(t), es);
    case AtRemove(_, _) =>
      RemoveSound(s, t);
      es := OtherCloses(Next(s, Remove(t)), t, u, c);
      es := First(s, Remove(t), es);
    case AtClose(_) =>
      CloseSound(s, t);
      es := ClosedRemovesAnother(Next(s, Close(t)), u, c);
      es := First(s, Close(t), es);
  }

  lemma ExposedRemovesAnother(s: Sys, t: Tid, u: Tid) returns (es: seq<Event>)
    requires Sound(s) && Exposed(s, t, u)
    ensures Wrong(s, es)
  {
    var c := s.threads[u].conn;
    assert ThreadOk(s, u);
    if s.threads[u].AtMark? {
      MarkSound(s, u);
      es := OtherCloses(Next(s, Mark(u)), t, u, c);
      es := First(s, Mark(u), es);
    } else if s.conns[c].stage == SHUT {
      es := ClosedRemovesAnother(s, u, c);
    } else {
      es := OtherCloses(s, t, u, c);
    }
  }

  /** Two threads that both pass the test of the state of one connection. */
  lemma TwoOwners(s: Sys, c: ConnId, t: Tid, u: Tid)
    requires Safe(s) && c in s.conns && s.conns[c].stage == LISTED && !s.conns[c].gone
    requires t !in s.threads && u !in s.threads && t != u
    ensures IsRun(s, [Check(t, c), Check(u, c), Mark(t), Mark(u)])
    ensures var r := After(s, [Check(t, c), Check(u, c), Mark(t), Mark(u)]);
            && r.conns == s.conns[c := s.conns[c].(gone := true)] && r.dict == s.dict
            && r.threads == s.threads[t := AtRemove(c, s.conns[c].fd)][u := AtRemove(c, s.conns[c].fd)]
  {
    var s1 := Next(s, Check(t, c));
    var s2 := Next(s1, Check(u, c));
    var s3 := Next(s2, Mark(t));
    var s4 := Next(s3, Mark(u));
    assert s4.threads == s.threads[t := AtRemove(c, s.conns[c].fd)][u := AtRemove(c, s.conns[c].fd)];
    assert s4.conns == s.conns[c := s.conns[c].(gone := true)];
    Runs4(s, Check(t, c), Check(u, c), Mark(t), Mark(u));
  }

  lemma Runs4(s: Sys, a: Event, b: Event, c: Event, d: Event)
    requires Enabled(s, a) && Enabled(Next(s, a), b) && Enabled(Next(Next(s, a), b), c)
    requires Enabled(Next(Next(Next(s, a), b), c), d)
    ensures IsRun(s, [a, b, c, d])
    ensures After(s, [a, b, c, d]) == Next(Next(Next(Next(s, a), b), c), d)
  {
    RunThenStep(s, [], a);
    RunThenStep(s, [a], b);
    RunThenStep(s, [a, b], c);
    RunThenStep(s, [a, b, c], d);
    assert [] + [a] == [a] && [a] + [b] == [a, b] && [a, b] + [c] == [a, b, c] && [a, b, c] + [d] == [a, b, c, d];
  }

  /** Then the slower one can remove the entry of a new connection that was given the descriptor. */
  lemma StrangerRemoved(s: Sys, c: ConnId, t: Tid, u: Tid, d: ConnId)
    requires DistinctFds(s) && c in s.conns && s.conns[c].stage == LISTED && d !in s.conns && t != u
    requires t in s.threads && s.threads[t] == AtRemove(c, s.conns[c].fd)
    requires u in s.threads && s.threads[u] == AtRemove(c, s.conns[c].fd)
    ensures var begin := [Remove(t), Close(t), Open(d, s.conns[c].fd), Register(d)];
            var es := begin + [Remove(u)];
            && IsRun(s, begin) && Enabled(After(s, begin), Remove(u)) && !RemovesOwn(After(s, begin), u)
            && IsRun(s, es)
            && var r := After(s, es);
               && d in r.conns && r.conns[d] == Conn(s.conns[c].fd, LISTED, false) && r.conns[d].fd !in r.dict
  {
    var fd := s.conns[c].fd;
    var s1 := Next(s, Remove(t));
    var s2 := Next(s1, Close(t));
    assert !InUse(s2, fd);
    var s3 := Next(s2, Open(d, fd));
    var s4 := Next(s3, Register(d));
    assert Enabled(s4, Remove(u));
    Runs4(s, Remove(t), Close(t), Open(d, fd), Register(d));
    RunThenStep(s, [Remove(t), Close(t), Open(d, fd), Register(d)], Remove(u));
  }

  lemma {:induction false} RunThenStep(s: Sys, es: seq<Event>, e: Event)
    requires IsRun(s, es) && Enabled(After(s, es), e)
    ensures IsRun(s, es + [e]) && After(s, es + [e]) == Next(After(s, es), e)
    decreases es
  {
    if es == [] {
      assert [e][1..] == [];
      assert es + [e] == [e];
    } else {
      RunThenStep(Next(s, es[0]), es[1..], e);
      assert (es + [e])[1..] == es[1..] + [e];
    }
  }

  /** A run from the start: two threads disconnect one connection, and the entry of the connection that
      reuses its descriptor is removed while it is in use. */
  lemma EntryOfAnotherLost(c: ConnId, d: ConnId, fd: Fd, t: Tid, u: Tid)
    requires c != d && t != u
    ensures var es := [Open(c, fd), Register(c)] + [Check(t, c), Check(u, c), Mark(t), Mark(u)]
                      + ([Remove(t), Close(t), Open(d, fd), Register(d)] + [Remove(u)]);
            && IsRun(START, es)
            && var r := After(START, es);
               d in r.conns && r.conns[d] == Conn(fd, LISTED, false) && fd !in r.dict
  {
    var s0 := Next(START, Open(c, fd));
    var s1 := Next(s0, Register(c));
    assert s1 == Sys(map[c := Conn(fd, LISTED, false)], map[fd := c], map[]);
    RunThenStep(START, [], Open(c, fd));
    RunThenStep(START, [Open(c, fd)], Register(c));
    assert [] + [Open(c, fd)] == [Open(c, fd)] && [Open(c, fd)] + [Register(c)] == [Open(c, fd), Register(c)];
    TwoOwners(s1, c, t, u);
    var both := [Check(t, c), Check(u, c), Mark(t), Mark(u)];
    var s2 := After(s1, both);
    StrangerRemoved(s2, c, t, u, d);
    RunsJoin(START, [Open(c, fd), Register(c)], both);
    RunsJoin(START, [Open(c, fd), Register(c)] + both,
             [Remove(t), Close(t), Open(d, fd), Register(d)] + [Remove(u)]);
  }

  lemma {:induction false} RunsJoin(s: Sys, es: seq<Event>, fs: seq<Event>)
    requires IsRun(s, es) && IsRun(After(s, es), fs)
    ensures IsRun(s, es + fs) && After(s, es + fs) == After(After(s, es), fs)
    decreases es
  {
    if es == [] {
      assert es + fs == fs;
    } else {
      assert (es + fs)[1..] == es[1..] + fs;
      RunsJoin(Next(s, es[0]), es[1..], fs);
    }
  }
}
