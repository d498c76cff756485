/** The pool of resources: its three queues, and the "operation" that must be done once on every
    resource, tracked by time stamps. */
module ResPool {
  import opened Strings

  type ResId = nat

  /** A dummy request ("kick") only wakes the monitor up. */
  datatype Request = Normal(id: nat) | Dummy

  /** maxRequests == 0 means no limit. A resource is alive while it has a stamp. */
  datatype Pool = Pool(maxRes: nat, maxRequests: nat, resQ: seq<ResId>, reqQ: seq<Request>, privQ: seq<nat>,
                       stamp: map<ResId, int>, oper: Option<int>, tStampOper: int, ctrDone: int, created: int)

  const PRIV_MAX := 100

  predicate IsStale(p: Pool, r: ResId) {
    r in p.stamp && p.stamp[r] < p.tStampOper
  }

  function Stale(p: Pool): set<ResId> {
    set r | r in p.stamp && IsStale(p, r)
  }

  /** The operation is still to be done on r. */
  predicate MustOperate(p: Pool, r: ResId) {
    p.oper.Some? && IsStale(p, r)
  }

  function AfterOper(p: Pool, r: ResId, now: int): Pool {
    if MustOperate(p, r) then
      p.(stamp := p.stamp[r := now], ctrDone := p.ctrDone + 1,
         oper := if p.ctrDone + 1 >= p.maxRes then None else p.oper)
    else p
  }

  function PutRes(p: Pool, r: ResId, now: int): Pool {
    var q := AfterOper(p, r, now);
    if |q.resQ| >= q.maxRes then q else q.(resQ := q.resQ + [r])
  }

  /** rebuildRes(): spare is the new resource, if one could be created; its stamp is its creation time. */
  function Rebuild(p: Pool, spare: Option<ResId>, now: int): Pool {
    if spare == None then p
    else
      var q := p.(stamp := p.stamp[spare.value := now]);
      var full := |q.resQ| >= q.maxRes;
      var q' := PutRes(q, spare.value, now);
      if full then q' else q'.(created := q'.created + 1)
  }

  function Destroy(p: Pool, r: ResId): Pool {
    p.(stamp := p.stamp - {r}, created := p.created - 1)
  }

  function Release(p: Pool, r: ResId, sane: bool, spare: Option<ResId>, now: int): Pool {
    if sane then PutRes(p, r, now) else Rebuild(Destroy(p, r), spare, now)
  }

  predicate Refuses(p: Pool, force: bool) {
    p.oper.Some? && !force && p.ctrDone < p.maxRes
  }

  function Kick(p: Pool): Pool {
    if p.maxRequests != 0 && |p.reqQ| >= p.maxRequests then p else p.(reqQ := p.reqQ + [Dummy])
  }

  function Assign(p: Pool, oper: int, force: bool, now: int): Pool {
    if Refuses(p, force) then p
    else Kick(p.(ctrDone := 0, oper := Some(oper), tStampOper := now))
  }

  /** The pool object, each method being one protected section. */
  class GxResPool {
    const maxRes: nat
    const maxRequests: nat
    var resourcesQueue: seq<ResId>
    var requestsQueue: seq<Request>
    var privRequestsQueue: seq<nat>
    var tStampLastOper: map<ResId, int>
    var operationToDo: Option<int>
    var tStampOperation: int
    var ctrResDone: int
    var resCreatedCtr: int

    function Value(): Pool reads this {
      Pool(maxRes, maxRequests, resourcesQueue, requestsQueue, privRequestsQueue,
           tStampLastOper, operationToDo, tStampOperation, ctrResDone, resCreatedCtr)
    }

    constructor (maxRes: nat, maxRequests: nat, now: int)
      ensures Value() == Pool(maxRes, maxRequests, [], [], [], map[], None, now, 0, 0)
    {
      this.maxRes, this.maxRequests := maxRes, maxRequests;
      resourcesQueue, requestsQueue, privRequestsQueue, tStampLastOper := [], [], [], map[];
      operationToDo, tStampOperation, ctrResDone, resCreatedCtr := None, now, 0, 0;
    }

    method PutResInQueueExt(res: ResId, now: int) returns (rc: int)
      requires res in tStampLastOper
      modifies this
      ensures Value() == PutRes(old(Value()), res, now)
      ensures rc == if |old(resourcesQueue)| >= maxRes then -2 else 0
      ensures tStampLastOper[res := 0] == old(tStampLastOper)[res := 0]
      ensures tStampLastOper[res] == if old(operationToDo.Some? && tStampLastOper[res] < tStampOperation) then now
                                     else old(tStampLastOper)[res]
      ensures operationToDo == None <==>
              || old(operationToDo) == None
              || old(tStampLastOper[res] < tStampOperation && ctrResDone + 1 >= maxRes)
    {
      if operationToDo.Some? && tStampLastOper[res] < tStampOperation {
        tStampLastOper := tStampLastOper[res := now];
        ctrResDone := ctrResDone + 1;
        if ctrResDone >= maxRes { operationToDo := None; }
      }
      if |resourcesQueue| >= maxRes { return -2; }
      resourcesQueue := resourcesQueue + [res];
      rc := 0;
    }

    method RebuildRes(spare: Option<ResId>, now: int)
      modifies this
      ensures Value() == Rebuild(old(Value()), spare, now)
    {
      if spare.Some? {
        tStampLastOper := tStampLastOper[spare.value := now];
        var rc := PutResInQueueExt(spare.value, now);
        if rc == 0 { resCreatedCtr := resCreatedCtr + 1; }
      }
    }

    method ReleaseResource(res: ResId, sane: bool, spare: Option<ResId>, now: int)
      requires res in tStampLastOper
      modifies this
      ensures Value() == Release(old(Value()), res, sane, spare, now)
      ensures resourcesQueue == old(resourcesQueue)
                                + if |old(resourcesQueue)| >= maxRes then []
                                  else if sane then [res] else if spare.Some? then [spare.value] else []
      ensures res in tStampLastOper <==> sane || spare == Some(res)
      ensures resCreatedCtr
              == old(resCreatedCtr) - if sane || (spare.Some? && |old(resourcesQueue)| < maxRes) then 0 else 1
    {
      if sane {
        var _ := PutResInQueueExt(res, now);
      } else {
        tStampLastOper := tStampLastOper - {res};
        resCreatedCtr := resCreatedCtr - 1;
        RebuildRes(spare, now);
      }
    }

    method KickMonitor()
      modifies this
      ensures Value() == Kick(old(Value()))
      ensures requestsQueue == old(requestsQueue)
                               + if maxRequests != 0 && |old(requestsQueue)| >= maxRequests then [] else [Dummy]
    {
      if maxRequests == 0 || |requestsQueue| < maxRequests { requestsQueue := requestsQueue + [Dummy]; }
    }

    method AssignOperation(oper: int, force: bool, now: int) returns (ok: bool)
      modifies this
      ensures ok <==> old(operationToDo) == None || force || old(ctrResDone) >= maxRes
      ensures Value() == Assign(old(Value()), oper, force, now)
      ensures ok ==> operationToDo == Some(oper) && tStampOperation == now && ctrResDone == 0
      ensures !ok ==> Value() == old(Value())
    {
      if operationToDo.Some? && !force && ctrResDone < maxRes { return false; }
      ctrResDone := 0;
      operationToDo := Some(oper);
      tStampOperation := now;
      KickMonitor();
      ok := true;
    }

    method AddRequest(id: nat) returns (rc: int)
      modifies this
      ensures rc == if maxRequests != 0 && |old(requestsQueue)| >= maxRequests then -1 else 0
      ensures Value() == if rc == 0 then old(Value()).(reqQ := old(requestsQueue) + [Normal(id)]) else old(Value())
    {
      if maxRequests != 0 && |requestsQueue| >= maxRequests { return -1; }
      requestsQueue := requestsQueue + [Normal(id)];
      rc := 0;
    }

    /** The request is queued first, then the monitor is kicked. */
    method AddPrivRequest(id: nat) returns (rc: int)
      modifies this
      ensures rc == if |old(privRequestsQueue)| >= PRIV_MAX then -2 else 0
      ensures Value() == if rc == 0 then Kick(old(Value()).(privQ := old(privRequestsQueue) + [id])) else old(Value())
      ensures rc == 0 ==> requestsQueue != []
    {
      if |privRequestsQueue| >= PRIV_MAX { return -2; }
      privRequestsQueue := privRequestsQueue + [id];
      KickMonitor();
      rc := 0;
    }

    /** One turn of the loop: the operation is done on res, which goes to the end of the queue, and
        the monitor takes the first resource. */
    method OperateOnce(res: ResId, now: int) returns (next: ResId)
      requires res in tStampLastOper && |resourcesQueue| < maxRes
      modifies this
      ensures (Value(), next) == Turn(old(Value()), res, now)
    {
      var _ := PutResInQueueExt(res, now);
      next := resourcesQueue[0];
      resourcesQueue := resourcesQueue[1..];
    }

    /** The loop of processOneRequest() that does the operation, with no other thread in between:
        res is what the monitor holds, good what it leaves the loop with; busy is what the workers have. */
    method OperateUntilGood(res: ResId, now: int, ghost busy: multiset<ResId>) returns (good: ResId)
      requires Holding(Value(), res, busy) && now >= tStampOperation
      modifies this
      ensures Holding(Value(), good, busy) && !MustOperate(Value(), good)
      ensures ctrResDone - old(ctrResDone) == |Stale(old(Value()))| - |Stale(Value())|
      ensures Stale(Value()) <= Stale(old(Value()))
      ensures operationToDo == None || operationToDo == old(operationToDo)
      ensures SameButResources(Value(), old(Value()))
    {
      good := res;
      while operationToDo.Some? && tStampLastOper[good] < tStampOperation
        invariant Holding(Value(), good, busy)
        invariant ctrResDone - old(ctrResDone) == |Stale(old(Value()))| - |Stale(Value())|
        invariant Stale(Value()) <= Stale(old(Value()))
        invariant operationToDo == None || operationToDo == old(operationToDo)
        invariant SameButResources(Value(), old(Value()))
        decreases |Stale(Value())|
      {
        TurnKeeps(Value(), good, now, busy);
        good := OperateOnce(good, now);
      }
    }

    /** processOneRequest() when it has not to wait, with no other thread in between: a privileged request
        goes first, with the first resource; any other gets a resource that needs no operation. */
    method ProcessOneRequest(now: int, ghost busy: multiset<ResId>) returns (res: ResId, req: Request, priv: bool)
      requires multiset(resourcesQueue) + busy == multiset(tStampLastOper.Keys) && |tStampLastOper.Keys| <= maxRes
      requires resourcesQueue != [] && (privRequestsQueue != [] || requestsQueue != []) && now >= tStampOperation
      modifies this
      ensures Holding(Value(), res, busy) && tStampLastOper.Keys == old(tStampLastOper).Keys
      ensures priv <==> old(privRequestsQueue) != []
      ensures priv ==> req == Normal(old(privRequestsQueue)[0]) && res == old(resourcesQueue)[0]
                       && Value() == old(Value()).(resQ := old(resourcesQueue)[1..],
                                                   privQ := old(privRequestsQueue)[1..])
      ensures !priv ==> req == old(requestsQueue)[0] && requestsQueue == old(requestsQueue)[1..]
                        && privRequestsQueue == [] && !MustOperate(Value(), res)
    {
      res := resourcesQueue[0];
      HeadAndTail(resourcesQueue);
      assert res in multiset(tStampLastOper.Keys);
      resourcesQueue := resourcesQueue[1..];
      if privRequestsQueue != [] {
        req := Normal(privRequestsQueue[0]);
        privRequestsQueue := privRequestsQueue[1..];
        return res, req, true;
      }
      req := requestsQueue[0];
      requestsQueue := requestsQueue[1..];
      res := OperateUntilGood(res, now, busy);
      priv := false;
    }
  }

  function Turn(p: Pool, r: ResId, now: int): (Pool, ResId)
    requires |p.resQ| < p.maxRes
  {
    var q := PutRes(p, r, now);
    (q.(resQ := q.resQ[1..]), q.resQ[0])
  }

  /** Every resource is in the queue, or is r, or is busy, once. */
  predicate Holding(p: Pool, r: ResId, busy: multiset<ResId>) {
    multiset(p.resQ) + multiset{r} + busy == multiset(p.stamp.Keys) && r in p.stamp && |p.stamp.Keys| <= p.maxRes
  }

  predicate SameButResources(p: Pool, q: Pool) {
    q.(resQ := p.resQ, stamp := p.stamp, oper := p.oper, ctrDone := p.ctrDone) == p && p.stamp.Keys == q.stamp.Keys
  }

  lemma QueueShort(p: Pool, r: ResId, busy: multiset<ResId>)
    requires Holding(p, r, busy)
    ensures |p.resQ| < p.maxRes
  {
    assert |multiset(p.resQ) + multiset{r} + busy| == |p.resQ| + 1 + |busy|;
  }

  lemma HeadAndTail(q: seq<ResId>)
    requires q != []
    ensures multiset(q) == multiset{q[0]} + multiset(q[1..])
  {
    assert q == [q[0]] + q[1..];
  }

  lemma TurnKeeps(p: Pool, r: ResId, now: int, busy: multiset<ResId>)
    requires Holding(p, r, busy) && MustOperate(p, r) && now >= p.tStampOper
    ensures |p.resQ| < p.maxRes
    ensures var t := Turn(p, r, now);
            && Holding(t.0, t.1, busy) && SameButResources(t.0, p)
            && Stale(t.0) == Stale(p) - {r} && |Stale(t.0)| == |Stale(p)| - 1
            && t.0.ctrDone == p.ctrDone + 1 && (t.0.oper == None || t.0.oper == p.oper)
  {
    QueueShort(p, r, busy);
    StampedIsNotStale(p, r, now);
    var q := PutRes(p, r, now);
    var t := Turn(p, r, now);
    assert q.resQ == p.resQ + [r];
    HeadAndTail(q.resQ);
    assert q.stamp.Keys == p.stamp.Keys;
    assert multiset(t.0.resQ) + multiset{t.1} + busy == multiset(p.stamp.Keys);
    assert t.1 in multiset(p.stamp.Keys);
    assert Stale(t.0) == Stale(q);
  }

  lemma StampedIsNotStale(p: Pool, r: ResId, now: int)
    requires now >= p.tStampOper
    ensures Stale(PutRes(p, r, now)) == if MustOperate(p, r) then Stale(p) - {r} else Stale(p)
    ensures MustOperate(p, r) ==> |Stale(PutRes(p, r, now))| == |Stale(p)| - 1
    ensures PutRes(p, r, now).ctrDone == p.ctrDone + (if MustOperate(p, r) then 1 else 0)
  {
    var q := PutRes(p, r, now);
    assert forall x :: x in q.stamp <==> x in p.stamp;
    assert forall x :: x in q.stamp && x != r ==> q.stamp[x] == p.stamp[x];
    assert Stale(q) == if MustOperate(p, r) then Stale(p) - {r} else Stale(p);
    assert MustOperate(p, r) ==> r in Stale(p);
  }
}
