/** Every run of a persistent queue: puts, gets, new processes, and everything that can fail in them. */
module VarQueueRun {
  import opened Strings
  import opened VarQueues

  /** With the queue: the keys of its records and what they were made of, which stamps earlier processes
      left, the items of the committed puts, those that committed gets removed, and how many committed puts
      met a key that was there already. */
  datatype Sys<T> = Sys(q: State<T>, keys: seq<string>, stamps: seq<Stamp>, inherited: set<Stamp>,
                        accepted: seq<T>, taken: seq<T>, repeats: nat)

  datatype Event<T> =
    | PutOne(item: T, now: string, putFault: PutFault)
    | GetOne(getFault: GetFault)
    | NewProcess

  function Empty<T>(): Sys<T> { Sys(State([], map[], 0), [], [], {}, [], [], 0) }

  /** A committed put of a key that is in the table counts as a repeat. */
  function AfterPut<T>(s: Sys<T>, item: T, k: string, st: Stamp, fault: PutFault): Sys<T> {
    var t := s.(q := PutTo(s.q, item, k, fault));
    if !PutCommits(k, fault) then t
    else t.(keys := s.keys + [k], stamps := s.stamps + [st], accepted := s.accepted + [item],
            repeats := if k in s.q.data then s.repeats + 1 else s.repeats)
  }

  function AfterGet<T>(s: Sys<T>, fault: GetFault): Sys<T> {
    if GetCommits(s.q, fault) && s.keys != [] && s.stamps != [] then
      s.(q := GetFrom(s.q, fault), keys := s.keys[1..], stamps := s.stamps[1..],
         taken := s.taken + [s.q.data[Strip(s.q.fifo[0])]])
    else s
  }

  function NextStamp<T>(s: Sys<T>, now: string): Stamp { Stamp(now, s.q.seqNo + 1) }

  function Next<T>(name: string, s: Sys<T>, ev: Event<T>): Sys<T> {
    match ev
    case PutOne(item, now, fault) => var st := NextStamp(s, now); AfterPut(s, item, RefKey(name, st), st, fault)
    case GetOne(fault) => AfterGet(s, fault)
    case NewProcess => s.(q := s.q.(seqNo := 0), inherited := set st | st in s.stamps)
  }

  function After<T>(name: string, s: Sys<T>, evs: seq<Event<T>>): Sys<T>
    decreases evs
  {
    if evs == [] then s else After(name, Next(name, s, evs[0]), evs[1..])
  }

  // ----- What every step keeps

  ghost predicate Numbered(stamps: seq<Stamp>, seqNo: nat, inherited: set<Stamp>) {
    forall st :: st in stamps ==> st.no <= seqNo || st in inherited
  }

  /** The tables agree, and hold in order what was put and not yet removed. */
  ghost predicate Sound<T>(s: Sys<T>) {
    Consistent(s.q, s.keys) && s.taken + Stored(s.keys, s.q.data) == s.accepted
  }

  /** One item was lost by each repeated key. */
  ghost predicate Tables<T>(s: Sys<T>) {
    && Records(s.q.fifo, s.keys) && s.q.data.Keys <= KeySet(s.keys)
    && |s.q.data| + s.repeats == |s.keys| && |s.taken| + |s.keys| == |s.accepted|
    && (s.repeats == 0 ==> Sound(s))
  }

  ghost predicate Kept<T>(name: string, s: Sys<T>) {
    Tables(s) && Made(name, s.keys, s.stamps) && Numbered(s.stamps, s.q.seqNo, s.inherited)
  }

  lemma PutTables<T>(s: Sys<T>, item: T, k: string, st: Stamp, fault: PutFault)
    requires Tables(s) && PutCommits(k, fault)
    ensures Tables(AfterPut(s, item, k, st, fault))
  {
    if s.repeats == 0 && k !in s.q.data {
      ItemAppended(s.q, s.keys, k, item, s.q.seqNo + 1);
      assert s.taken + (Stored(s.keys, s.q.data) + [item]) == s.accepted + [item];
    }
  }

  lemma MadeMore(name: string, keys: seq<string>, stamps: seq<Stamp>, k: string, st: Stamp)
    requires Made(name, keys, stamps) && k == RefKey(name, st)
    ensures Made(name, keys + [k], stamps + [st])
  {}

  lemma PutKeeps<T>(name: string, s: Sys<T>, item: T, k: string, st: Stamp, fault: PutFault)
    requires Kept(name, s) && k == RefKey(name, st) && st.no == s.q.seqNo + 1
    ensures Kept(name, AfterPut(s, item, k, st, fault))
  {
    if PutCommits(k, fault) {
      PutTables(s, item, k, st, fault);
      MadeMore(name, s.keys, s.stamps, k, st);
    }
  }

  lemma GetTables<T>(s: Sys<T>, fault: GetFault)
    requires Tables(s) && s.keys != [] && s.stamps != [] && GetCommits(s.q, fault) && Strip(s.q.fifo[0]) == s.keys[0]
    ensures Tables(AfterGet(s, fault))
  {
    var t := AfterGet(s, fault);
    assert t.q == WithoutHead(s.q, s.keys[0]) && t.keys == s.keys[1..] && t.taken == s.taken + [s.q.data[s.keys[0]]];
    HeadTaken(s, s.keys[0], t.q);
    if s.repeats == 0 { HeadInOrder(s, t); }
  }

  function WithoutHead<T>(q: State<T>, k: string): State<T>
    requires q.fifo != []
  {
    State(q.fifo[1..], q.data - {k}, q.seqNo)
  }

  lemma HeadTaken<T>(s: Sys<T>, k: string, q: State<T>)
    requires Tables(s) && s.keys != [] && s.keys[0] == k && k in s.q.data && q == WithoutHead(s.q, k)
    ensures Records(q.fifo, s.keys[1..]) && q.data.Keys <= KeySet(s.keys[1..]) && |q.data| + 1 == |s.q.data|
  {
    RestOfKeys(s.keys);
    assert s.q.data.Keys == q.data.Keys + {k};
  }

  lemma HeadInOrder<T>(s: Sys<T>, t: Sys<T>)
    requires Sound(s) && s.keys != [] && t.q == WithoutHead(s.q, s.keys[0]) && t.keys == s.keys[1..]
    requires s.keys[0] in s.q.data && t.taken == s.taken + [s.q.data[s.keys[0]]] && t.accepted == s.accepted
    ensures Sound(t)
  {
    HeadRemoved(s.q, s.keys);
    var head, left := [s.q.data[s.keys[0]]], Stored(t.keys, t.q.data);
    assert s.taken + (head + left) == (s.taken + head) + left;
  }

  lemma MadeLess(name: string, keys: seq<string>, stamps: seq<Stamp>)
    requires Made(name, keys, stamps) && keys != []
    ensures Made(name, keys[1..], stamps[1..])
  {}

  lemma GetKeeps<T>(name: string, s: Sys<T>, fault: GetFault)
    requires Kept(name, s)
    ensures Kept(name, AfterGet(s, fault))
  {
    if GetCommits(s.q, fault) {
      HeadKey(name, s.q, s.keys, s.stamps);
      GetTables(s, fault);
      MadeLess(name, s.keys, s.stamps);
    }
  }

  lemma {:induction false} RunsKeep<T>(name: string, s: Sys<T>, evs: seq<Event<T>>)
    requires Kept(name, s)
    ensures Kept(name, After(name, s, evs))
    decreases evs
  {
    if evs == [] {
    } else {
      match evs[0] {
        case PutOne(item, now, fault) =>
          var st := NextStamp(s, now);
          PutKeeps(name, s, item, RefKey(name, st), st, fault);
        case GetOne(fault) => GetKeeps(name, s, fault);
        case NewProcess =>
      }
      RunsKeep(name, Next(name, s, evs[0]), evs[1..]);
    }
  }

  lemma EmptyIsKept<T>(name: string)
    ensures Kept(name, Empty<T>())
  {
    assert KeySet([]) == {};
  }

  lemma RunsAreKept<T>(name: string, evs: seq<Event<T>>)
    ensures Kept(name, After(name, Empty<T>(), evs))
  {
    EmptyIsKept<T>(name);
    RunsKeep(name, Empty<T>(), evs);
  }

  // ----- Over every run

  lemma {:induction false} AsManyKeys(keys: seq<string>)
    requires Distinct(keys)
    ensures |KeySet(keys)| == |keys|
  {
    if keys != [] {
      AsManyKeys(keys[1..]);
      RestOfKeys(keys);
    }
  }

  /** In every run, whatever fails: the tables agree and the items of the committed puts are, in order, those
      that committed gets removed and then those stored, if and only if no committed put met its key in the
      table; and each put that did lost one item. */
  lemma FirstInFirstOut<T>(name: string, evs: seq<Event<T>>)
    ensures var t := After(name, Empty<T>(), evs);
            && (Sound(t) <==> t.repeats == 0)
            && |t.accepted| == |t.taken| + |t.q.data| + t.repeats
  {
    var t := After(name, Empty<T>(), evs);
    RunsAreKept(name, evs);
    if Sound(t) { AsManyKeys(t.keys); }
  }

  /** Only a key of an earlier process can be met: its clock showed the same text at the same number. */
  lemma RepeatIsInherited<T>(name: string, evs: seq<Event<T>>, now: string)
    ensures var t := After(name, Empty<T>(), evs);
            RefKey(name, NextStamp(t, now)) in t.q.data ==> NextStamp(t, now) in t.inherited
  {
    RunsAreKept(name, evs);
    MetIsInherited(name, After(name, Empty<T>(), evs), NextStamp(After(name, Empty<T>(), evs), now));
  }

  lemma MetIsInherited<T>(name: string, s: Sys<T>, st: Stamp)
    requires Kept(name, s) && st.no == s.q.seqNo + 1
    ensures RefKey(name, st) in s.q.data ==> st in s.inherited
  {
    if RefKey(name, st) in s.q.data { MadeBefore(name, s.keys, s.stamps, st); }
  }

  lemma {:induction false} NoneInherited<T>(name: string, s: Sys<T>, evs: seq<Event<T>>)
    requires Kept(name, s) && s.inherited == {} && s.repeats == 0
    requires forall i :: 0 <= i < |evs| ==> !evs[i].NewProcess?
    ensures After(name, s, evs).repeats == 0
    decreases evs
  {
    if evs == [] {
    } else {
      NotRepeated(name, s, evs[0]);
      NoneInherited(name, Next(name, s, evs[0]), evs[1..]);
    }
  }

  lemma NotRepeated<T>(name: string, s: Sys<T>, ev: Event<T>)
    requires Kept(name, s) && s.inherited == {} && !ev.NewProcess?
    ensures var t := Next(name, s, ev); Kept(name, t) && t.inherited == {} && t.repeats == s.repeats
  {
    match ev
    case PutOne(item, now, fault) =>
      var st := NextStamp(s, now);
      var k := RefKey(name, st);
      PutKeeps(name, s, item, k, st, fault);
      MetIsInherited(name, s, st);
    case GetOne(fault) => GetKeeps(name, s, fault);
  }

  /** So the queue of one process keeps everything in order, whatever its clock does. */
  lemma OneProcessIsSound<T>(name: string, evs: seq<Event<T>>)
    requires forall i :: 0 <= i < |evs| ==> !evs[i].NewProcess?
    ensures Sound(After(name, Empty<T>(), evs))
  {
    EmptyIsKept<T>(name);
    NoneInherited(name, Empty<T>(), evs);
    FirstInFirstOut(name, evs);
  }

  // ----- The run that loses an item

  /** One item is put by each of two processes whose clocks show the same text; the first is lost, and the
      second leaves a record without item. */
  lemma RepeatedStamp<T>(name: string, x: T, y: T, now: string, k: string)
    requires GoodName(name) && k == RefKey(name, Stamp(now, 1)) && |k| <= RE_LEN
    ensures var t := After(name, Empty<T>(), [PutOne(x, now, NoPutFault), NewProcess, PutOne(y, now, NoPutFault),
                                              GetOne(NoGetFault)]);
            && t.accepted == [x, y] && t.taken == [y] && t.repeats == 1
            && t.q.data == map[] && t.q.fifo == [Padded(k)] && t.keys == [k]
  {
    var st, s0, put1, put2 := Stamp(now, 1), Empty<T>(), PutOne(x, now, NoPutFault), PutOne(y, now, NoPutFault);
    FourSteps(name, s0, put1, NewProcess, put2, GetOne(NoGetFault));
    KeySurvivesRecord(name, st);
    PutTwice(x, y, k, st);
  }

  lemma PutTwice<T>(x: T, y: T, k: string, st: Stamp)
    requires |k| <= RE_LEN && Strip(Padded(k)) == k
    ensures var s1 := AfterPut(Empty<T>(), x, k, st, NoPutFault);
            var s3 := AfterPut(s1.(q := s1.q.(seqNo := 0), inherited := {st}), y, k, st, NoPutFault);
            && s3.q == State([Padded(k), Padded(k)], map[k := y], 1) && s3.keys == [k, k] && s3.stamps == [st, st]
            && s3.accepted == [x, y] && s3.taken == [] && s3.repeats == 1
  {}

  lemma FourSteps<T>(name: string, s: Sys<T>, a: Event<T>, b: Event<T>, c: Event<T>, d: Event<T>)
    ensures After(name, s, [a, b, c, d]) == Next(name, Next(name, Next(name, Next(name, s, a), b), c), d)
  {
    var s1 := Next(name, s, a);
    var s2 := Next(name, s1, b);
    var s3 := Next(name, s2, c);
    assert [a, b, c, d][1..] == [b, c, d] && [b, c, d][1..] == [c, d] && [c, d][1..] == [d] && [d][1..] == [];
    assert After(name, s1, [b, c, d]) == After(name, s2, [c, d]);
    assert After(name, s2, [c, d]) == After(name, s3, [d]);
    assert After(name, s3, [d]) == Next(name, s3, d);
  }

  /** A record whose item is missing stays at the head, and nothing behind it is ever given out, as long as
      no clock shows its text again. */
  lemma {:induction false} StuckForEver<T>(name: string, s: Sys<T>, evs: seq<Event<T>>)
    requires Kept(name, s) && s.keys != [] && s.keys[0] !in s.q.data
    requires forall i :: 0 <= i < |evs| ==> evs[i].PutOne? ==> evs[i].now != s.stamps[0].time
    ensures After(name, s, evs).taken == s.taken
    ensures forall fault :: Returned(After(name, s, evs).q, fault) == None
    decreases evs
  {
    HeadKey(name, s.q, s.keys, s.stamps);
    if evs != [] {
      StuckStep(name, s, evs[0]);
      StuckForEver(name, Next(name, s, evs[0]), evs[1..]);
    }
  }

  lemma StuckStep<T>(name: string, s: Sys<T>, ev: Event<T>)
    requires Kept(name, s) && s.keys != [] && s.keys[0] !in s.q.data
    requires ev.PutOne? ==> ev.now != s.stamps[0].time
    ensures Kept(name, Next(name, s, ev)) && SameHead(s, Next(name, s, ev))
  {
    match ev
    case PutOne(item, now, fault) =>
      var st := NextStamp(s, now);
      var k := RefKey(name, st);
      PutKeeps(name, s, item, k, st, fault);
      if k == s.keys[0] { RefKeyInjective(name, s.stamps[0], st); }
      HeadStays(s, item, k, st, fault);
    case GetOne(fault) => HeadKey(name, s.q, s.keys, s.stamps);
    case NewProcess =>
  }

  ghost predicate SameHead<T>(s: Sys<T>, t: Sys<T>) {
    && s.keys != [] && t.keys != [] && t.keys[0] == s.keys[0] && t.keys[0] !in t.q.data
    && s.stamps != [] && t.stamps != [] && t.stamps[0] == s.stamps[0] && t.taken == s.taken
  }

  lemma HeadStays<T>(s: Sys<T>, item: T, k: string, st: Stamp, fault: PutFault)
    requires s.keys != [] && s.stamps != [] && s.keys[0] !in s.q.data && k != s.keys[0]
    ensures SameHead(s, AfterPut(s, item, k, st, fault))
  {}
}
