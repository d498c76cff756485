/** Every interleaving of one monitor thread, any number of workers and callers on a resource pool. */
module ResPoolRun {
  import opened Strings
  import opened ResPool

  /** Where the monitor is in processOneRequest(), and what it holds. */
  datatype Pc =
    | AwaitRes
    | AtPrivCheck(res: ResId)
    | AwaitReq(res: ResId)
    | OperLoop(res: ResId, req: Request)
    | GetNext(req: Request, tries: nat)
    | AwaitNext(req: Request)
    | Spawning(res: ResId, req: Request, priv: bool)

  /** What happened since an operation was assigned: done is the resources it was done on; lost counts
      those it cannot be counted for, because they were not older than it or were destroyed before. */
  datatype History = History(began: bool, done: seq<ResId>, lost: int)

  /** kicks is the callers between their put of a privileged request and their kick. */
  datatype Sys = Sys(p: Pool, pc: Pc, workers: multiset<ResId>, kicks: nat, clock: int, next: ResId, h: History)

  datatype Event =
    | MonitorStep
    | Spawn(started: bool, sane: bool, rebuilt: bool)
    | WorkerDone(res: ResId, sane: bool, rebuilt: bool)
    | PutRequest(id: nat)
    | PutPriv(id: nat)
    | KickAfterPriv
    | AssignOper(oper: int, force: bool)
    | Tick(d: nat)

  function Hand(pc: Pc): multiset<ResId> {
    match pc
    case AtPrivCheck(r) => multiset{r}
    case AwaitReq(r) => multiset{r}
    case OperLoop(r, _) => multiset{r}
    case Spawning(r, _, _) => multiset{r}
    case _ => multiset{}
  }

  function RecordDone(s: Sys, r: ResId): History {
    if MustOperate(s.p, r) then s.h.(done := s.h.done + [r]) else s.h
  }

  /** The monitor or a worker puts r back, or replaces it. */
  function ReleaseStep(s: Sys, r: ResId, sane: bool, rebuilt: bool): Sys {
    var spare := if rebuilt then Some(s.next) else None;
    s.(p := Release(s.p, r, sane, spare, s.clock),
       next := if !sane && rebuilt then s.next + 1 else s.next,
       h := if sane then RecordDone(s, r)
            else s.h.(lost := s.h.lost + if IsStale(s.p, r) then 1 else 0))
  }

  predicate MonitorCanStep(s: Sys) {
    match s.pc
    case AwaitRes => s.p.resQ != []
    case AtPrivCheck(_) => true
    case AwaitReq(_) => s.p.reqQ != []
    case OperLoop(_, _) => true
    case GetNext(_, _) => true
    case AwaitNext(_) => s.p.resQ != []
    case Spawning(_, _, _) => false
  }

  function TakeRes(s: Sys): Pool
    requires s.p.resQ != []
  {
    s.p.(resQ := s.p.resQ[1..])
  }

  function Monitor(s: Sys): Sys
    requires MonitorCanStep(s)
  {
    match s.pc
    case AwaitRes => s.(p := TakeRes(s), pc := AtPrivCheck(s.p.resQ[0]))
    case AtPrivCheck(r) =>
      if s.p.privQ != [] then
        s.(p := s.p.(privQ := s.p.privQ[1..]), pc := Spawning(r, Normal(s.p.privQ[0]), true))
      else s.(pc := AwaitReq(r))
    case AwaitReq(r) => s.(p := s.p.(reqQ := s.p.reqQ[1..]), pc := OperLoop(r, s.p.reqQ[0]))
    case OperLoop(r, req) =>
      if MustOperate(s.p, r)
      then s.(p := PutRes(s.p, r, s.clock), h := RecordDone(s, r), pc := GetNext(req, 0))
      else s.(pc := Spawning(r, req, false))
    case GetNext(req, tries) =>
      if s.p.resQ != [] then s.(p := TakeRes(s), pc := OperLoop(s.p.resQ[0], req))
      else if tries + 1 < 5 then s.(pc := GetNext(req, tries + 1))
      else s.(pc := AwaitNext(req))
    case AwaitNext(req) => s.(p := TakeRes(s), pc := Spawning(s.p.resQ[0], req, false))
    case Spawning(_, _, _) => s
  }

  predicate Enabled(s: Sys, e: Event) {
    match e
    case MonitorStep => MonitorCanStep(s)
    case Spawn(_, _, _) => s.pc.Spawning?
    case WorkerDone(r, _, _) => r in s.workers
    case PutPriv(_) => |s.p.privQ| < PRIV_MAX
    case KickAfterPriv => s.kicks > 0
    case _ => true
  }

  function Next(s: Sys, e: Event): Sys
    requires Enabled(s, e)
  {
    match e
    case MonitorStep => Monitor(s)
    case Spawn(started, sane, rebuilt) =>
      // a dummy request, or a thread that cannot be started, gives the resource back at once
      if s.pc.req.Dummy? || !started then ReleaseStep(s, s.pc.res, sane, rebuilt).(pc := AwaitRes)
      else s.(workers := s.workers + multiset{s.pc.res}, pc := AwaitRes)
    case WorkerDone(r, sane, rebuilt) =>
      ReleaseStep(s, r, sane, rebuilt).(workers := s.workers - multiset{r})
    case PutRequest(id) =>
      if s.p.maxRequests != 0 && |s.p.reqQ| >= s.p.maxRequests then s
      else s.(p := s.p.(reqQ := s.p.reqQ + [Normal(id)]))
    case PutPriv(id) => s.(p := s.p.(privQ := s.p.privQ + [id]), kicks := s.kicks + 1)
    case KickAfterPriv => s.(p := Kick(s.p), kicks := s.kicks - 1)
    case AssignOper(oper, force) => AssignStep(s, oper, force)
    case Tick(d) => s.(clock := s.clock + d)
  }

  function AssignStep(s: Sys, oper: int, force: bool): Sys {
    if Refuses(s.p, force) then s
    else
      var p := Assign(s.p, oper, force, s.clock);
      s.(p := p, h := History(true, [], p.maxRes - |Stale(p)|))
  }

  ghost predicate Initial(s: Sys) {
    && s.pc == AwaitRes && s.workers == multiset{} && s.kicks == 0
    && s.p.reqQ == [] && s.p.privQ == [] && s.p.oper == None && s.p.tStampOper <= s.clock
    && multiset(s.p.resQ) == multiset(s.p.stamp.Keys)
    && s.p.created == |s.p.stamp.Keys| <= s.p.maxRes && 0 < s.p.maxRes
    && (forall r :: r in s.p.stamp ==> r < s.next && s.p.stamp[r] <= s.clock)
    && s.h == History(false, [], 0)
  }

  /** es is a run from s. */
  ghost predicate IsRun(s: Sys, es: seq<Event>)
    decreases es
  {
    es != [] ==> Enabled(s, es[0]) && IsRun(Next(s, es[0]), es[1..])
  }

  ghost function After(s: Sys, es: seq<Event>): Sys
    requires IsRun(s, es)
    decreases es
  {
    if es == [] then s else After(Next(s, es[0]), es[1..])
  }

  // ----- Conservation

  function Held(s: Sys): multiset<ResId> {
    Hand(s.pc) + s.workers
  }

  ghost predicate Balanced(p: Pool, held: multiset<ResId>) {
    && multiset(p.resQ) + held == multiset(p.stamp.Keys)
    && p.created == |p.stamp.Keys| <= p.maxRes
  }

  /** Every resource is in exactly one place: the queue, the monitor's hand, or one worker. */
  ghost predicate Conserved(s: Sys) {
    && 0 < s.p.maxRes && Balanced(s.p, Held(s))
    && forall r :: r in s.p.stamp ==> r < s.next
  }

  /** A resource that is held outside can be put back: the queue is not full. */
  lemma RoomToPut(p: Pool, r: ResId, others: multiset<ResId>)
    requires multiset(p.resQ) + multiset{r} + others == multiset(p.stamp.Keys) && |p.stamp.Keys| <= p.maxRes
    ensures |p.resQ| < p.maxRes && r in p.stamp
  {
    assert |multiset(p.resQ) + multiset{r} + others| == |p.resQ| + 1 + |others|;
    assert r in multiset(p.stamp.Keys);
  }

  lemma PutConserves(p: Pool, r: ResId, others: multiset<ResId>, now: int)
    requires multiset(p.resQ) + multiset{r} + others == multiset(p.stamp.Keys) && |p.stamp.Keys| <= p.maxRes
    ensures var q := PutRes(p, r, now);
            && multiset(q.resQ) + others == multiset(q.stamp.Keys) && q.stamp.Keys == p.stamp.Keys
            && q.resQ == p.resQ + [r] && q.created == p.created && q.maxRes == p.maxRes
  {
    RoomToPut(p, r, others);
    var q := PutRes(p, r, now);
    assert q.stamp.Keys == p.stamp.Keys;
    assert multiset(q.resQ) == multiset(p.resQ) + multiset{r};
  }

  lemma ReleaseConserves(p: Pool, r: ResId, others: multiset<ResId>, sane: bool, spare: Option<ResId>, now: int)
    requires multiset(p.resQ) + multiset{r} + others == multiset(p.stamp.Keys)
    requires p.created == |p.stamp.Keys| <= p.maxRes
    requires spare.Some? ==> spare.value !in p.stamp
    ensures var q := Release(p, r, sane, spare, now);
            && Balanced(q, others) && q.maxRes == p.maxRes
            && q.stamp.Keys <= p.stamp.Keys + (if !sane && spare.Some? then {spare.value} else {})
  {
    if sane {
      PutConserves(p, r, others, now);
    } else {
      RoomToPut(p, r, others);
      var d := Destroy(p, r);
      assert d.stamp.Keys == p.stamp.Keys - {r};
      assert multiset(d.stamp.Keys) == multiset(p.stamp.Keys) - multiset{r};
      assert multiset(d.resQ) + others == multiset(d.stamp.Keys);
      if spare.Some? {
        var n := spare.value;
        var m := d.(stamp := d.stamp[n := now]);
        assert m.stamp.Keys == d.stamp.Keys + {n};
        assert multiset(m.stamp.Keys) == multiset(d.stamp.Keys) + multiset{n};
        PutConserves(m, n, others, now);
      }
    }
  }

  lemma ReleaseStepConserves(s: Sys, r: ResId, others: multiset<ResId>, sane: bool, rebuilt: bool)
    requires Conserved(s) && Held(s) == multiset{r} + others
    ensures var s' := ReleaseStep(s, r, sane, rebuilt);
            && Balanced(s'.p, others) && s'.p.maxRes == s.p.maxRes && (forall x :: x in s'.p.stamp ==> x < s'.next)
  {
    var spare := if rebuilt then Some(s.next) else None;
    MoveOut(multiset(s.p.resQ), Held(s), r, others);
    ReleaseConserves(s.p, r, others, sane, spare, s.clock);
  }

  lemma MoveOut(q: multiset<ResId>, held: multiset<ResId>, r: ResId, others: multiset<ResId>)
    requires held == multiset{r} + others
    ensures q + held == q + multiset{r} + others
  {}

  lemma TakeConserves(p: Pool, held: multiset<ResId>)
    requires Balanced(p, held) && p.resQ != []
    ensures Balanced(p.(resQ := p.resQ[1..]), multiset{p.resQ[0]} + held)
  {
    HeadAndTail(p.resQ);
  }

  lemma MonitorTakes(s: Sys)
    requires Conserved(s) && s.p.resQ != []
    requires s.pc.AwaitRes? || s.pc.GetNext? || s.pc.AwaitNext?
    ensures Conserved(Monitor(s))
  {
    var s' := Monitor(s);
    TakeConserves(s.p, Held(s));
    assert Held(s) == s.workers;
    assert s'.p == TakeRes(s) && Hand(s'.pc) == multiset{s.p.resQ[0]};
  }

  lemma MonitorPuts(s: Sys)
    requires Conserved(s) && s.pc.OperLoop? && MustOperate(s.p, s.pc.res)
    ensures Conserved(Monitor(s))
  {
    MoveOut(multiset(s.p.resQ), Held(s), s.pc.res, s.workers);
    PutConserves(s.p, s.pc.res, s.workers, s.clock);
    assert Held(Monitor(s)) == s.workers;
  }

  lemma MonitorOnlyMoves(s: Sys)
    requires MonitorCanStep(s) && !(s.pc.OperLoop? && MustOperate(s.p, s.pc.res))
    requires s.p.resQ == [] || !(s.pc.AwaitRes? || s.pc.GetNext? || s.pc.AwaitNext?)
    ensures var s' := Monitor(s);
            && SameResources(s.p, s'.p) && Hand(s'.pc) == Hand(s.pc) && s'.workers == s.workers
            && s'.next == s.next && s'.h == s.h
  {}

  ghost predicate SameResources(p: Pool, q: Pool) {
    q.(reqQ := p.reqQ, privQ := p.privQ, oper := p.oper, tStampOper := p.tStampOper, ctrDone := p.ctrDone) == p
  }

  lemma SameResourcesConserved(s: Sys, s': Sys)
    requires Conserved(s) && SameResources(s.p, s'.p) && Held(s') == Held(s) && s'.next == s.next
    ensures Conserved(s')
  {}

  lemma MonitorConserves(s: Sys)
    requires Conserved(s) && MonitorCanStep(s)
    ensures Conserved(Monitor(s))
  {
    if s.p.resQ != [] && (s.pc.AwaitRes? || s.pc.GetNext? || s.pc.AwaitNext?) {
      MonitorTakes(s);
    } else if s.pc.OperLoop? && MustOperate(s.p, s.pc.res) {
      MonitorPuts(s);
    } else {
      MonitorOnlyMoves(s);
      SameResourcesConserved(s, Monitor(s));
    }
  }

  lemma SpawnConserves(s: Sys, started: bool, sane: bool, rebuilt: bool)
    requires Conserved(s) && s.pc.Spawning?
    ensures Conserved(Next(s, Spawn(started, sane, rebuilt)))
  {
    var s' := Next(s, Spawn(started, sane, rebuilt));
    if s.pc.req.Dummy? || !started {
      ReleaseStepConserves(s, s.pc.res, s.workers, sane, rebuilt);
      assert Held(s') == s.workers;
    } else {
      assert Held(s') == Held(s);
    }
  }

  lemma WorkerConserves(s: Sys, r: ResId, sane: bool, rebuilt: bool)
    requires Conserved(s) && r in s.workers
    ensures Conserved(Next(s, WorkerDone(r, sane, rebuilt)))
  {
    var others := Hand(s.pc) + (s.workers - multiset{r});
    assert Held(s) == multiset{r} + others;
    ReleaseStepConserves(s, r, others, sane, rebuilt);
  }

  lemma CallersKeepResources(s: Sys, e: Event)
    requires Enabled(s, e) && !e.MonitorStep? && !e.Spawn? && !e.WorkerDone?
    ensures var s' := Next(s, e);
            SameResources(s.p, s'.p) && s'.pc == s.pc && s'.workers == s.workers && s'.next == s.next
  {}

  lemma StepConserves(s: Sys, e: Event)
    requires Conserved(s) && Enabled(s, e)
    ensures Conserved(Next(s, e))
  {
    match e
    case MonitorStep => MonitorConserves(s);
    case Spawn(started, sane, rebuilt) => SpawnConserves(s, started, sane, rebuilt);
    case WorkerDone(r, sane, rebuilt) => WorkerConserves(s, r, sane, rebuilt);
    case _ =>
      CallersKeepResources(s, e);
      SameResourcesConserved(s, Next(s, e));
  }

  // ----- No lost wake-up

  /** When the monitor is past its check of the privileged requests and one is pending, there is
      something in the requests queue to wake it, or a kick to come. And the queue of resources is not
      empty when the monitor looks for the next resource, so that it never waits with a request in hand. */
  ghost predicate Woken(s: Sys) {
    && (s.pc.AwaitReq? && s.p.privQ != [] ==> s.p.reqQ != [] || s.kicks > 0)
    && (s.pc.GetNext? ==> s.pc.tries == 0 && s.p.resQ != [])
    && !s.pc.AwaitNext?
  }

  lemma MonitorWakes(s: Sys)
    requires Conserved(s) && Woken(s) && MonitorCanStep(s)
    ensures Woken(Monitor(s))
  {
    if s.pc.OperLoop? { RoomToPut(s.p, s.pc.res, s.workers); }
  }

  lemma ReleaseKeepsQueue(s: Sys, r: ResId, sane: bool, rebuilt: bool)
    ensures var p := ReleaseStep(s, r, sane, rebuilt).p;
            && p.reqQ == s.p.reqQ && p.privQ == s.p.privQ && (s.p.resQ != [] ==> p.resQ != [])
  {}

  lemma StepWakes(s: Sys, e: Event)
    requires Conserved(s) && Woken(s) && Enabled(s, e)
    ensures Woken(Next(s, e))
  {
    match e
    case MonitorStep => MonitorWakes(s);
    case Spawn(_, _, _) =>
    case WorkerDone(r, sane, rebuilt) =>
      ReleaseKeepsQueue(s, r, sane, rebuilt);
      assert Next(s, e).pc == s.pc && Next(s, e).kicks == s.kicks;
    case _ =>
      CallersKeepResources(s, e);
      CallersWake(s, e);
  }

  lemma CallersWake(s: Sys, e: Event)
    requires Enabled(s, e) && !e.MonitorStep? && !e.Spawn? && !e.WorkerDone?
    ensures var s' := Next(s, e);
            && (s.p.reqQ != [] || s.kicks > 0 ==> s'.p.reqQ != [] || s'.kicks > 0)
            && (s'.p.privQ != s.p.privQ ==> s'.kicks > 0)
  {}

  // ----- The operation

  ghost predicate Timed(s: Sys) {
    s.p.tStampOper <= s.clock && forall r :: r in s.p.stamp ==> s.p.stamp[r] <= s.clock
  }

  ghost predicate NoDup<T>(q: seq<T>) {
    forall i, j :: 0 <= i < j < |q| ==> q[i] != q[j]
  }

  /** ctrResDone is the number of resources the operation was done on, each once; with those still
      to do and those lost it makes maxRes; and the operation is over when it reaches maxRes. */
  ghost predicate Counted(p: Pool, h: History, next: ResId) {
    && NoDup(h.done) && (forall r :: r in h.done ==> r < next && !IsStale(p, r))
    && (h.began ==> p.ctrDone == |h.done| && p.ctrDone + |Stale(p)| + h.lost == p.maxRes && h.lost >= 0
                    && (p.oper.None? <==> p.ctrDone >= p.maxRes))
    && (!h.began ==> p.oper.None? && h.done == [])
  }

  lemma PutCounts(s: Sys, r: ResId)
    requires Counted(s.p, s.h, s.next) && Timed(s) && Conserved(s) && r in s.p.stamp
    ensures Counted(PutRes(s.p, r, s.clock), RecordDone(s, r), s.next)
    ensures var q := PutRes(s.p, r, s.clock);
            q.tStampOper == s.p.tStampOper && forall x :: x in q.stamp ==> q.stamp[x] <= s.clock
  {
    StampedIsNotStale(s.p, r, s.clock);
    var q := PutRes(s.p, r, s.clock);
    if MustOperate(s.p, r) {
      assert r in Stale(s.p) && r !in s.h.done;
      forall x | x in RecordDone(s, r).done ensures x < s.next && !IsStale(q, x) {
        if x == r { assert q.stamp[x] == s.clock; }
      }
    }
  }

  lemma FreshIsNotStale(p: Pool, n: ResId, now: int)
    requires n !in p.stamp && now >= p.tStampOper
    ensures Stale(p.(stamp := p.stamp[n := now])) == Stale(p)
    ensures Stale(Rebuild(p, Some(n), now)) == Stale(p)
    ensures Rebuild(p, Some(n), now).stamp == p.stamp[n := now]
    ensures SameOper(Rebuild(p, Some(n), now), p)
  {
    var m := p.(stamp := p.stamp[n := now]);
    assert forall x :: x in m.stamp <==> x in p.stamp || x == n;
    assert !IsStale(m, n);
    assert Rebuild(p, Some(n), now).stamp == m.stamp;
  }

  predicate SameOper(p: Pool, q: Pool) {
    p.oper == q.oper && p.ctrDone == q.ctrDone && p.tStampOper == q.tStampOper && p.maxRes == q.maxRes
  }

  lemma DestroyedStale(p: Pool, r: ResId)
    requires r in p.stamp
    ensures Stale(Destroy(p, r)) == Stale(p) - {r}
    ensures |Stale(Destroy(p, r))| == |Stale(p)| - (if IsStale(p, r) then 1 else 0)
  {
    assert Stale(Destroy(p, r)) == Stale(p) - {r};
    assert IsStale(p, r) <==> r in Stale(p);
  }

  lemma ReplaceCounts(s: Sys, r: ResId, rebuilt: bool)
    requires Counted(s.p, s.h, s.next) && Timed(s) && Conserved(s) && r in s.p.stamp
    ensures var s' := ReleaseStep(s, r, false, rebuilt);
            Counted(s'.p, s'.h, s'.next) && Timed(s')
  {
    var d := Destroy(s.p, r);
    DestroyedStale(s.p, r);
    if rebuilt { FreshIsNotStale(d, s.next, s.clock); }
    var s' := ReleaseStep(s, r, false, rebuilt);
    assert Stale(s'.p) == Stale(d) && SameOper(s'.p, s.p);
    forall x | x in s'.h.done ensures x < s'.next && !IsStale(s'.p, x) {}
  }

  lemma ReleaseCounts(s: Sys, r: ResId, sane: bool, rebuilt: bool)
    requires Counted(s.p, s.h, s.next) && Timed(s) && Conserved(s) && r in s.p.stamp
    ensures var s' := ReleaseStep(s, r, sane, rebuilt);
            Counted(s'.p, s'.h, s'.next) && Timed(s')
  {
    if sane { PutCounts(s, r); } else { ReplaceCounts(s, r, rebuilt); }
  }

  lemma AssignCounts(s: Sys, oper: int, force: bool)
    requires Counted(s.p, s.h, s.next) && Timed(s) && Conserved(s)
    ensures var s' := AssignStep(s, oper, force);
            Counted(s'.p, s'.h, s'.next) && Timed(s')
  {
    var q := Assign(s.p, oper, force, s.clock);
    SubsetSize(Stale(q), s.p.stamp.Keys);
  }

  lemma {:induction false} SubsetSize<T>(a: set<T>, b: set<T>)
    requires a <= b
    ensures |a| <= |b|
  {
    if a != {} {
      var x :| x in a;
      SubsetSize(a - {x}, b - {x});
    }
  }

  lemma SameStale(p: Pool, q: Pool)
    requires p.stamp == q.stamp && p.tStampOper == q.tStampOper
    ensures Stale(p) == Stale(q)
  {}

  ghost predicate Accounted(s: Sys) {
    Counted(s.p, s.h, s.next) && Timed(s)
  }

  lemma HeldIsAlive(s: Sys, r: ResId)
    requires Conserved(s) && r in Held(s)
    ensures r in s.p.stamp
  {
    assert r in multiset(s.p.stamp.Keys);
  }

  /** A step that leaves the operation, the stamps and the history alone. */
  lemma QuietAccounted(s: Sys, s': Sys)
    requires Accounted(s) && s'.p.stamp == s.p.stamp && SameOper(s'.p, s.p)
    requires s'.h == s.h && s'.next == s.next && s'.clock >= s.clock
    ensures Accounted(s')
  {
    SameStale(s.p, s'.p);
  }

  lemma MonitorAccounted(s: Sys)
    requires Conserved(s) && Accounted(s) && MonitorCanStep(s)
    ensures Accounted(Monitor(s))
  {
    if s.pc.OperLoop? && MustOperate(s.p, s.pc.res) {
      HeldIsAlive(s, s.pc.res);
      PutCounts(s, s.pc.res);
    } else {
      QuietAccounted(s, Monitor(s));
    }
  }

  lemma StepAccounted(s: Sys, e: Event)
    requires Conserved(s) && Accounted(s) && Enabled(s, e)
    ensures Accounted(Next(s, e))
  {
    match e
    case MonitorStep => MonitorAccounted(s);
    case Spawn(started, sane, rebuilt) =>
      if s.pc.req.Dummy? || !started {
        HeldIsAlive(s, s.pc.res);
        ReleaseCounts(s, s.pc.res, sane, rebuilt);
      } else {
        QuietAccounted(s, Next(s, e));
      }
    case WorkerDone(r, sane, rebuilt) =>
      HeldIsAlive(s, r);
      ReleaseCounts(s, r, sane, rebuilt);
    case AssignOper(oper, force) => AssignCounts(s, oper, force);
    case _ => QuietAccounted(s, Next(s, e));
  }

  // ----- Over whole runs

  ghost predicate Safe(s: Sys) {
    Conserved(s) && Woken(s) && Accounted(s)
  }

  lemma StepSafe(s: Sys, e: Event)
    requires Safe(s) && Enabled(s, e)
    ensures Safe(Next(s, e))
  {
    StepConserves(s, e);
    StepWakes(s, e);
    StepAccounted(s, e);
  }

  lemma InitialIsSafe(s: Sys)
    requires Initial(s)
    ensures Safe(s)
  {
    assert Held(s) == multiset{};
  }

  lemma {:induction false} RunsAreSafe(s: Sys, es: seq<Event>)
    requires Safe(s) && IsRun(s, es)
    ensures Safe(After(s, es))
    decreases es
  {
    if es != [] {
      StepSafe(s, es[0]);
      RunsAreSafe(Next(s, es[0]), es[1..]);
    }
  }

  /** In every run the put of a resource that the monitor or a worker holds finds room, and its
      resources, in the queue and outside, are as many as were created and not destroyed. */
  lemma NothingLostOrDuplicated(s0: Sys, es: seq<Event>, r: ResId)
    requires Initial(s0) && IsRun(s0, es)
    ensures var s := After(s0, es);
            && |s.p.resQ| + |Held(s)| == s.p.created <= s.p.maxRes
            && (r in Held(s) ==> |s.p.resQ| < s.p.maxRes && r !in s.p.resQ && Held(s)[r] == 1)
  {
    InitialIsSafe(s0);
    RunsAreSafe(s0, es);
    var s := After(s0, es);
    var all := multiset(s.p.resQ) + Held(s);
    assert |all| == |s.p.resQ| + |Held(s)|;
    assert all[r] <= 1;
    if r in Held(s) {
      MoveOut(multiset(s.p.resQ), Held(s), r, Held(s) - multiset{r});
      RoomToPut(s.p, r, Held(s) - multiset{r});
      assert r in s.p.resQ ==> r in multiset(s.p.resQ);
    }
  }

  /** A monitor that waits for a request while a privileged one is pending is woken: it can step now,
      or a caller is about to kick it. */
  lemma NoLostWakeUp(s0: Sys, es: seq<Event>)
    requires Initial(s0) && IsRun(s0, es)
    ensures var s := After(s0, es);
            s.pc.AwaitReq? && s.p.privQ != [] ==> Enabled(s, MonitorStep) || Enabled(s, KickAfterPriv)
  {
    InitialIsSafe(s0);
    RunsAreSafe(s0, es);
  }

  /** A privileged request is pending in every state of the run but the last. */
  ghost predicate PrivPending(s: Sys, es: seq<Event>)
    requires IsRun(s, es)
    decreases es
  {
    es != [] ==> s.p.privQ != [] && PrivPending(Next(s, es[0]), es[1..])
  }

  /** The requests taken from the requests queue during the run. */
  ghost function RequestsTaken(s: Sys, es: seq<Event>): nat
    requires IsRun(s, es)
    decreases es
  {
    if es == [] then 0
    else (if s.pc.AwaitReq? && es[0].MonitorStep? then 1 else 0) + RequestsTaken(Next(s, es[0]), es[1..])
  }

  /** At most one other request is taken while a privileged request is pending. */
  lemma {:induction false} BypassedOnce(s: Sys, es: seq<Event>)
    requires IsRun(s, es) && PrivPending(s, es)
    ensures RequestsTaken(s, es) <= if s.pc.AwaitReq? then 1 else 0
    decreases es
  {
    if es != [] {
      BypassedOnce(Next(s, es[0]), es[1..]);
      EnterAwaitReq(s, es[0]);
    }
  }

  lemma EnterAwaitReq(s: Sys, e: Event)
    requires Enabled(s, e) && s.p.privQ != []
    ensures Next(s, e).pc.AwaitReq? ==> s.pc.AwaitReq? && !e.MonitorStep?
  {}

  /** The clients' requests of a queue, without the dummies. */
  function Ids(q: seq<Request>): seq<nat> {
    if q == [] then [] else Id(q[0]) + Ids(q[1..])
  }

  function Id(req: Request): seq<nat> {
    if req.Normal? then [req.id] else []
  }

  /** The request that the monitor has taken, if it is of that kind. */
  function Taken(pc: Pc, priv: bool): seq<nat> {
    match pc
    case OperLoop(_, req) => if priv then [] else Id(req)
    case GetNext(req, _) => if priv then [] else Id(req)
    case AwaitNext(req) => if priv then [] else Id(req)
    case Spawning(_, req, p) => if priv == p then Id(req) else []
    case _ => []
  }

  function Queued(p: Pool, priv: bool): seq<nat> {
    if priv then p.privQ else Ids(p.reqQ)
  }

  /** The requests of one kind that the monitor has or that are queued, the oldest first. */
  function Waiting(s: Sys, priv: bool): seq<nat> {
    Taken(s.pc, priv) + Queued(s.p, priv)
  }

  function Put(s: Sys, e: Event, priv: bool): seq<nat> {
    match e
    case PutRequest(id) => if !priv && (s.p.maxRequests == 0 || |s.p.reqQ| < s.p.maxRequests) then [id] else []
    case PutPriv(id) => if priv then [id] else []
    case _ => []
  }

  function Handed(s: Sys, e: Event, priv: bool): seq<nat> {
    if e.Spawn? then Taken(s.pc, priv) else []
  }

  /** The requests of one kind that callers put into the pool during the run. */
  ghost function Accepted(s: Sys, es: seq<Event>, priv: bool): seq<nat>
    requires IsRun(s, es)
    decreases es
  {
    if es == [] then [] else Put(s, es[0], priv) + Accepted(Next(s, es[0]), es[1..], priv)
  }

  /** Those that were handed over with a resource, in order. */
  ghost function HandedOver(s: Sys, es: seq<Event>, priv: bool): seq<nat>
    requires IsRun(s, es)
    decreases es
  {
    if es == [] then [] else Handed(s, es[0], priv) + HandedOver(Next(s, es[0]), es[1..], priv)
  }

  lemma {:induction false} AppendId(q: seq<Request>, req: Request)
    ensures Ids(q + [req]) == Ids(q) + Id(req)
  {
    if q == [] {
      assert q + [req] == [req] && [req][1..] == [];
    } else {
      AppendId(q[1..], req);
      assert (q + [req])[0] == q[0] && (q + [req])[1..] == q[1..] + [req];
      assert Id(q[0]) + (Ids(q[1..]) + Id(req)) == (Id(q[0]) + Ids(q[1..])) + Id(req);
    }
  }

  lemma MonitorServes(s: Sys, priv: bool)
    requires MonitorCanStep(s)
    ensures Waiting(s, priv) == Waiting(Monitor(s), priv)
  {
    if s.pc.AwaitReq? {
      assert Ids(s.p.reqQ) == Id(s.p.reqQ[0]) + Ids(s.p.reqQ[1..]);
    } else if s.pc.AtPrivCheck? && s.p.privQ != [] {
      assert s.p.privQ == Id(Normal(s.p.privQ[0])) + s.p.privQ[1..];
    }
  }

  lemma ReleaseKeepsQueued(s: Sys, r: ResId, sane: bool, rebuilt: bool, priv: bool)
    ensures Queued(ReleaseStep(s, r, sane, rebuilt).p, priv) == Queued(s.p, priv)
  {
    ReleaseKeepsQueue(s, r, sane, rebuilt);
  }

  lemma ReleaseServes(s: Sys, e: Event, priv: bool)
    requires Enabled(s, e) && (e.Spawn? || e.WorkerDone?)
    ensures Waiting(s, priv) + Put(s, e, priv) == Handed(s, e, priv) + Waiting(Next(s, e), priv)
  {
    ReleaseKeepsQueued(s, if e.Spawn? then s.pc.res else e.res, e.sane, e.rebuilt, priv);
  }

  lemma CallerQueues(s: Sys, e: Event, priv: bool)
    requires Enabled(s, e) && (e.PutRequest? || e.PutPriv? || e.KickAfterPriv?)
    ensures Next(s, e).pc == s.pc && Queued(Next(s, e).p, priv) == Queued(s.p, priv) + Put(s, e, priv)
  {
    if !priv { AppendId(s.p.reqQ, if e.PutRequest? then Normal(e.id) else Dummy); }
  }

  lemma CallerServes(s: Sys, e: Event, priv: bool)
    requires Enabled(s, e) && (e.PutRequest? || e.PutPriv? || e.KickAfterPriv?)
    ensures Waiting(s, priv) + Put(s, e, priv) == Handed(s, e, priv) + Waiting(Next(s, e), priv)
  {
    CallerQueues(s, e, priv);
    var taken, queued, put := Taken(s.pc, priv), Queued(s.p, priv), Put(s, e, priv);
    assert (taken + queued) + put == taken + (queued + put);
    assert Handed(s, e, priv) == [];
  }

  lemma StepServes(s: Sys, e: Event, priv: bool)
    requires Enabled(s, e)
    ensures Waiting(s, priv) + Put(s, e, priv) == Handed(s, e, priv) + Waiting(Next(s, e), priv)
  {
    if e.MonitorStep? {
      MonitorServes(s, priv);
    } else if e.Spawn? || e.WorkerDone? {
      ReleaseServes(s, e, priv);
    } else if e.PutRequest? || e.PutPriv? || e.KickAfterPriv? {
      CallerServes(s, e, priv);
    } else if e.AssignOper? {
      AppendId(s.p.reqQ, Dummy);
    }
  }

  lemma Chain(w: seq<nat>, a: seq<nat>, later: seq<nat>, h: seq<nat>, w': seq<nat>, h': seq<nat>, last: seq<nat>)
    requires w + a == h + w' && w' + later == h' + last
    ensures w + (a + later) == (h + h') + last
  {
    assert w + (a + later) == (w + a) + later;
    assert (h + w') + later == h + (w' + later);
    assert h + (h' + last) == (h + h') + last;
  }

  /** Every request that was put is handed over once, in the order of its kind, or is still waiting. */
  lemma {:induction false} ServedInOrder(s: Sys, es: seq<Event>, priv: bool)
    requires IsRun(s, es)
    ensures Waiting(s, priv) + Accepted(s, es, priv) == HandedOver(s, es, priv) + Waiting(After(s, es), priv)
    decreases es
  {
    if es != [] {
      var t, rest := Next(s, es[0]), es[1..];
      StepServes(s, es[0], priv);
      ServedInOrder(t, rest, priv);
      Chain(Waiting(s, priv), Put(s, es[0], priv), Accepted(t, rest, priv), Handed(s, es[0], priv),
            Waiting(t, priv), HandedOver(t, rest, priv), Waiting(After(t, rest), priv));
    }
  }

  /** The operation has been done once on each of ctrResDone resources; it is over exactly when no
      resource is left to do and none was lost to the count. */
  lemma OperationOncePerResource(s0: Sys, es: seq<Event>)
    requires Initial(s0) && IsRun(s0, es)
    ensures var s := After(s0, es);
            s.h.began ==>
              && NoDup(s.h.done) && s.p.ctrDone == |s.h.done|
              && (s.p.oper.None? <==> s.h.lost == 0 && Stale(s.p) == {})
  {
    InitialIsSafe(s0);
    RunsAreSafe(s0, es);
  }

  /** The loop is left with a resource that no operation is still to be done on; a try to get one after
      an operation always finds one, so the loop never ends without any. */
  lemma LoopLeavesWithGoodResource(s0: Sys, es: seq<Event>)
    requires Initial(s0) && IsRun(s0, es)
    ensures var s := After(s0, es);
            && (MonitorCanStep(s) && Monitor(s).pc.Spawning? && !Monitor(s).pc.priv ==>
                  !MustOperate(Monitor(s).p, Monitor(s).pc.res))
            && (s.pc.GetNext? ==> s.p.resQ != []) && !s.pc.AwaitNext?
  {
    InitialIsSafe(s0);
    RunsAreSafe(s0, es);
  }

  /** When the last operation of the run was accepted, if one was. */
  ghost function LastAccepted(s: Sys, es: seq<Event>): Option<int>
    requires IsRun(s, es)
    decreases es
  {
    if es == [] then None
    else
      var later := LastAccepted(Next(s, es[0]), es[1..]);
      if later.Some? then later
      else if es[0].AssignOper? && !Refuses(s.p, es[0].force) then Some(s.clock) else None
  }

  /** The resource that the monitor is about to hand over keeps its stamp. */
  ghost predicate SameInHand(s: Sys, t: Sys) {
    && s.pc.Spawning? && t.pc == s.pc && s.pc.res in s.p.stamp && t.pc.res in t.p.stamp
    && t.p.stamp[t.pc.res] == s.p.stamp[s.pc.res]
  }

  /** No operation was accepted from s to t; the pending one may have ended. */
  predicate NoNewOper(s: Sys, t: Sys) {
    t.p.tStampOper == s.p.tStampOper && (t.p.oper.Some? ==> s.p.oper.Some?)
  }

  lemma PutKeepsOthers(p: Pool, r: ResId, now: int, x: ResId)
    requires x in p.stamp && x != r
    ensures var q := PutRes(p, r, now);
            x in q.stamp && q.stamp[x] == p.stamp[x] && q.tStampOper == p.tStampOper && (q.oper.Some? ==> p.oper.Some?)
  {}

  lemma WorkerKeepsHand(s: Sys, r: ResId, sane: bool, rebuilt: bool)
    requires Safe(s) && s.pc.Spawning? && r in s.workers
    ensures var t := Next(s, WorkerDone(r, sane, rebuilt)); SameInHand(s, t) && NoNewOper(s, t)
  {
    var x := s.pc.res;
    HeldIsAlive(s, x);
    assert (multiset(s.p.resQ) + Held(s))[x] <= 1;
    assert (multiset{x} + s.workers)[x] <= 1;
    if sane {
      PutKeepsOthers(s.p, r, s.clock, x);
    } else if rebuilt {
      var d := Destroy(s.p, r);
      PutKeepsOthers(d.(stamp := d.stamp[s.next := s.clock]), s.next, s.clock, x);
    }
  }

  lemma StepInHand(s: Sys, e: Event)
    requires Safe(s) && s.pc.Spawning? && Enabled(s, e) && !e.Spawn?
    ensures SameInHand(s, Next(s, e))
    ensures e.AssignOper? && !Refuses(s.p, e.force) ==> Next(s, e).p.tStampOper == s.clock && Next(s, e).h.began
    ensures !(e.AssignOper? && !Refuses(s.p, e.force)) ==> NoNewOper(s, Next(s, e))
    ensures s.h.began ==> Next(s, e).h.began
  {
    HeldIsAlive(s, s.pc.res);
    match e
    case WorkerDone(r, sane, rebuilt) => WorkerKeepsHand(s, r, sane, rebuilt);
    case AssignOper(_, _) =>
    case _ => CallersKeepResources(s, e);
  }

  /** Until the resource is handed over, only an accepted operation can make it stale. */
  lemma {:induction false} RunInHand(s: Sys, es: seq<Event>)
    requires Safe(s) && s.pc.Spawning? && IsRun(s, es) && forall i :: 0 <= i < |es| ==> !es[i].Spawn?
    ensures var t, last := After(s, es), LastAccepted(s, es);
            && SameInHand(s, t) && Safe(t) && (s.h.began ==> t.h.began)
            && (last == None ==> NoNewOper(s, t))
            && (last.Some? ==> t.p.tStampOper == last.value && t.h.began)
    decreases es
  {
    if es == [] {
      HeldIsAlive(s, s.pc.res);
    } else {
      StepSafe(s, es[0]);
      StepInHand(s, es[0]);
      RunInHand(Next(s, es[0]), es[1..]);
    }
  }

  /** A request of the requests queue gets a resource that the pending operation is still to be done on,
      if and only if an operation was accepted after the loop's last test and the resource is older than
      the last such operation. */
  lemma HandedOverStaleIff(s0: Sys, es: seq<Event>, rest: seq<Event>)
    requires Initial(s0) && IsRun(s0, es)
    requires var s := After(s0, es);
             && MonitorCanStep(s) && Monitor(s).pc.Spawning? && !Monitor(s).pc.priv && IsRun(Monitor(s), rest)
    requires forall i :: 0 <= i < |rest| ==> !rest[i].Spawn?
    ensures var s := Monitor(After(s0, es));
            var t, last := After(s, rest), LastAccepted(s, rest);
            && t.pc == s.pc && s.pc.res in s.p.stamp
            && (MustOperate(t.p, t.pc.res) <==> last.Some? && s.p.stamp[s.pc.res] < last.value)
  {
    InitialIsSafe(s0);
    RunsAreSafe(s0, es);
    StepSafe(After(s0, es), MonitorStep);
    LoopLeavesWithGoodResource(s0, es);
    var s := Monitor(After(s0, es));
    RunInHand(s, rest);
    var t := After(s, rest);
    if IsStale(t.p, t.pc.res) && t.h.began { StaleIsPending(t, t.pc.res); }
  }

  lemma StaleIsPending(s: Sys, r: ResId)
    requires Safe(s) && s.h.began && IsStale(s.p, r)
    ensures MustOperate(s.p, r)
  {
    assert r in Stale(s.p);
  }

  /** A pool of one resource, and a request for it. */
  ghost predicate OneResource(s: Sys, r: ResId) {
    Initial(s) && s.p.resQ == [r] && s.p.stamp == map[r := s.clock] && s.p.maxRequests == 0
  }

  const TAKE_ONE := [PutRequest(7), MonitorStep, MonitorStep, MonitorStep, MonitorStep]
  const OVERTAKE := [Tick(1), AssignOper(5, false)]

  lemma TakesOne(s: Sys, r: ResId)
    requires OneResource(s, r)
    ensures IsRun(s, TAKE_ONE)
    ensures After(s, TAKE_ONE) == s.(p := s.p.(resQ := []), pc := Spawning(r, Normal(7), false))
  {
    var s1 := s.(p := s.p.(reqQ := [Normal(7)]));
    var s2 := s1.(p := s1.p.(resQ := []), pc := AtPrivCheck(r));
    var s3 := s2.(pc := AwaitReq(r));
    var s4 := s3.(p := s3.p.(reqQ := []), pc := OperLoop(r, Normal(7)));
    var t := s4.(pc := Spawning(r, Normal(7), false));
    RunOf(s, TAKE_ONE, s1);
    RunOf(s1, TAKE_ONE[1..], s2);
    RunOf(s2, TAKE_ONE[2..], s3);
    RunOf(s3, TAKE_ONE[3..], s4);
    RunOf(s4, TAKE_ONE[4..], t);
    assert TAKE_ONE[5..] == [];
  }

  lemma RunOf(s: Sys, es: seq<Event>, t: Sys)
    requires es != [] && Enabled(s, es[0]) && Next(s, es[0]) == t
    ensures IsRun(t, es[1..]) ==> IsRun(s, es) && After(s, es) == After(t, es[1..])
  {}

  lemma Overtaken(s: Sys, r: ResId)
    requires OneResource(s, r)
    ensures var t := s.(p := s.p.(resQ := []), pc := Spawning(r, Normal(7), false));
            && IsRun(t, OVERTAKE) && MustOperate(After(t, OVERTAKE).p, r) && After(t, OVERTAKE).pc == t.pc
            && After(t, OVERTAKE).h.began
  {
    var t := s.(p := s.p.(resQ := []), pc := Spawning(r, Normal(7), false));
    var t1 := t.(clock := t.clock + 1);
    var t2 := AssignStep(t1, 5, false);
    RunOf(t, OVERTAKE, t1);
    RunOf(t1, OVERTAKE[1..], t2);
    assert OVERTAKE[2..] == [];
  }

  /** The operation can overtake a request: the worker gets a resource that it is still to be done on. */
  lemma StaleHandedOver(s: Sys, r: ResId, sane: bool, rebuilt: bool)
    requires OneResource(s, r)
    ensures var es := TAKE_ONE + OVERTAKE + [Spawn(true, sane, rebuilt)];
            && IsRun(s, es) && Safe(After(s, es)) && After(s, es).h.began
            && r in After(s, es).workers && MustOperate(After(s, es).p, r)
  {
    var spawn := [Spawn(true, sane, rebuilt)];
    TakesOne(s, r);
    Overtaken(s, r);
    RunsJoin(s, TAKE_ONE, OVERTAKE);
    var t := After(s, TAKE_ONE + OVERTAKE);
    RunOf(t, spawn, Next(t, spawn[0]));
    RunsJoin(s, TAKE_ONE + OVERTAKE, spawn);
    InitialIsSafe(s);
    RunsAreSafe(s, TAKE_ONE + OVERTAKE + spawn);
  }

  lemma {:induction false} RunsJoin(s: Sys, es: seq<Event>, fs: seq<Event>)
    requires IsRun(s, es) && IsRun(After(s, es), fs)
    ensures IsRun(s, es + fs) && After(s, es + fs) == After(After(s, es), fs)
    decreases es
  {
    if es == [] {
      assert es + fs == fs;
    } else {
      assert (es + fs)[1..] == es[1..] + fs;
      RunsJoin(Next(s, es[0]), es[1..], fs);
    }
  }

  predicate Assigns(e: Event) { e.AssignOper? }

  /** The event replaces a resource by a new one, or loses it. */
  predicate Replaces(e: Event) {
    (e.Spawn? || e.WorkerDone?) && !e.sane
  }

  /** A resource lost to the count keeps the operation pending: no other one is accepted unless forced. */
  lemma {:induction false} LostMeansNeverOver(s: Sys, es: seq<Event>)
    requires Safe(s) && s.h.began && s.h.lost > 0 && IsRun(s, es)
    requires forall i :: 0 <= i < |es| ==> Assigns(es[i]) ==> !es[i].force
    ensures After(s, es).p.oper.Some? && After(s, es).p.tStampOper == s.p.tStampOper
    decreases es
  {
    if es != [] {
      var s' := Next(s, es[0]);
      StepSafe(s, es[0]);
      LostStaysLost(s, es[0]);
      LostMeansNeverOver(s', es[1..]);
    }
  }

  ghost predicate LosesNoLess(s: Sys, t: Sys) {
    t.h.began == s.h.began && t.h.lost >= s.h.lost && t.p.tStampOper == s.p.tStampOper
  }

  lemma ReleaseLosesNoLess(s: Sys, r: ResId, sane: bool, rebuilt: bool)
    ensures LosesNoLess(s, ReleaseStep(s, r, sane, rebuilt))
  {}

  lemma MonitorLosesNoLess(s: Sys)
    requires MonitorCanStep(s)
    ensures LosesNoLess(s, Monitor(s))
  {}

  lemma LostStaysLost(s: Sys, e: Event)
    requires Safe(s) && s.h.began && s.h.lost > 0 && Enabled(s, e)
    requires Assigns(e) ==> !e.force
    ensures LosesNoLess(s, Next(s, e))
  {
    match e
    case MonitorStep => MonitorLosesNoLess(s);
    case Spawn(started, sane, rebuilt) => ReleaseLosesNoLess(s, s.pc.res, sane, rebuilt);
    case WorkerDone(r, sane, rebuilt) => ReleaseLosesNoLess(s, r, sane, rebuilt);
    case AssignOper(_, force) => assert Refuses(s.p, force);
    case _ =>
  }

  /** When all maxRes resources are older than the operation and none is replaced, the operation is
      over exactly when it was done on each of them. */
  lemma UndisturbedOperation(s: Sys, oper: int, force: bool, es: seq<Event>)
    requires Safe(s) && !Refuses(s.p, force) && IsRun(AssignStep(s, oper, force), es)
    requires s.p.created == s.p.maxRes && forall r :: r in s.p.stamp ==> s.p.stamp[r] < s.clock
    requires forall i :: 0 <= i < |es| ==> !Assigns(es[i]) && !Replaces(es[i])
    ensures var t := After(AssignStep(s, oper, force), es);
            && t.p.ctrDone + |Stale(t.p)| == t.p.maxRes && NoDup(t.h.done)
            && (t.p.oper.None? <==> forall r :: r in s.p.stamp ==> r in t.h.done)
  {
    var a := AssignStep(s, oper, force);
    AllStale(s, oper, force);
    StepSafe(s, AssignOper(oper, force));
    RunsAreSafe(a, es);
    QuietRun(a, es);
    var t := After(a, es);
    if t.p.oper.None? { assert Stale(t.p) == {}; }
    forall r | r in s.p.stamp ensures r in Stale(t.p) <==> r !in t.h.done {}
    if forall r :: r in s.p.stamp ==> r in t.h.done { assert Stale(t.p) == {}; }
  }

  lemma AllStale(s: Sys, oper: int, force: bool)
    requires Safe(s) && !Refuses(s.p, force)
    requires s.p.created == s.p.maxRes && forall r :: r in s.p.stamp ==> s.p.stamp[r] < s.clock
    ensures var a := AssignStep(s, oper, force);
            a.h.lost == 0 && a.h.began && Stale(a.p) == a.p.stamp.Keys == s.p.stamp.Keys && DoneOrStale(a)
  {
    assert Stale(AssignStep(s, oper, force).p) == s.p.stamp.Keys;
  }

  ghost predicate DoneOrStale(s: Sys) {
    forall r :: r in s.p.stamp ==> (IsStale(s.p, r) <==> r !in s.h.done)
  }

  lemma {:induction false} QuietRun(s: Sys, es: seq<Event>)
    requires Safe(s) && s.h.began && s.h.lost == 0 && DoneOrStale(s) && IsRun(s, es)
    requires forall i :: 0 <= i < |es| ==> !Assigns(es[i]) && !Replaces(es[i])
    ensures var t := After(s, es);
            t.h.began && t.h.lost == 0 && DoneOrStale(t) && t.p.stamp.Keys == s.p.stamp.Keys
    decreases es
  {
    if es != [] {
      StepSafe(s, es[0]);
      QuietStep(s, es[0]);
      QuietRun(Next(s, es[0]), es[1..]);
    }
  }

  lemma QuietStep(s: Sys, e: Event)
    requires Safe(s) && s.h.began && s.h.lost == 0 && DoneOrStale(s)
    requires Enabled(s, e) && !Assigns(e) && !Replaces(e)
    ensures var t := Next(s, e);
            t.h.began && t.h.lost == 0 && DoneOrStale(t) && t.p.stamp.Keys == s.p.stamp.Keys
  {
    var t := Next(s, e);
    if e.MonitorStep? && s.pc.OperLoop? {
      PutQuiet(s, s.pc.res, t);
    } else if e.Spawn? && (s.pc.req.Dummy? || !e.started) {
      PutQuiet(s, s.pc.res, t);
    } else if e.WorkerDone? {
      PutQuiet(s, e.res, t);
    } else {
      NoPutStep(s, e);
      SameDone(s, t);
    }
  }

  lemma SameDone(s: Sys, t: Sys)
    requires DoneOrStale(s) && t.h == s.h && t.p.stamp == s.p.stamp && t.p.tStampOper == s.p.tStampOper
    ensures DoneOrStale(t)
  {}

  lemma NoPutStep(s: Sys, e: Event)
    requires Enabled(s, e) && !Assigns(e) && !e.WorkerDone?
    requires !(e.MonitorStep? && s.pc.OperLoop?) && !(e.Spawn? && (s.pc.req.Dummy? || !e.started))
    ensures var t := Next(s, e);
            t.h == s.h && t.p.stamp == s.p.stamp && t.p.tStampOper == s.p.tStampOper
  {}

  /** The step puts r back, or leaves it where it is when there is nothing to do on it. */
  lemma PutQuiet(s: Sys, r: ResId, t: Sys)
    requires Safe(s) && DoneOrStale(s) && r in Held(s)
    requires t.p.stamp == PutRes(s.p, r, s.clock).stamp && t.h == RecordDone(s, r)
    requires t.p.tStampOper == s.p.tStampOper
    ensures DoneOrStale(t) && t.p.stamp.Keys == s.p.stamp.Keys
    ensures t.h.began == s.h.began && t.h.lost == s.h.lost
  {
    HeldIsAlive(s, r);
    PutDoneOrStale(s, r);
  }

  lemma PutDoneOrStale(s: Sys, r: ResId)
    requires Safe(s) && DoneOrStale(s) && r in s.p.stamp
    ensures var p := PutRes(s.p, r, s.clock);
            && p.stamp.Keys == s.p.stamp.Keys
            && forall x :: x in p.stamp ==> (IsStale(p, x) <==> x !in RecordDone(s, r).done)
  {
    var p := PutRes(s.p, r, s.clock);
    assert p.stamp.Keys == s.p.stamp.Keys;
    forall x | x in p.stamp ensures IsStale(p, x) <==> x !in RecordDone(s, r).done {
      if x != r { assert x in RecordDone(s, r).done <==> x in s.h.done; }
    }
  }

  /** Replacing one resource that the operation was still to be done on is enough: the new one is never
      counted, and the operation stays pending whatever follows, until another one is forced. */
  lemma ReplacedResourceBlocksOperation(s: Sys, r: ResId, rebuilt: bool, es: seq<Event>)
    requires Safe(s) && s.h.began && r in s.workers && IsStale(s.p, r)
    requires IsRun(s, [WorkerDone(r, false, rebuilt)] + es)
    requires forall i :: 0 <= i < |es| ==> Assigns(es[i]) ==> !es[i].force
    ensures After(s, [WorkerDone(r, false, rebuilt)] + es).p.oper.Some?
  {
    var e := WorkerDone(r, false, rebuilt);
    assert ([e] + es)[1..] == es;
    StepSafe(s, e);
    LostMeansNeverOver(Next(s, e), es);
  }
}
