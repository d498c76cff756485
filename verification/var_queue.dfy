/** The persistent queue: a FIFO table of fixed-length records that hold keys, and a table of the items
    under these keys, both changed in one transaction. */
module VarQueues {
  import opened Strings

  const RE_LEN := 128

  /** How a key was made: the text of the clock ("%20.12f") and the sequence number of the instance. */
  datatype Stamp = Stamp(time: string, no: nat)

  function Blanks(n: nat): string { seq(n, _ => ' ') }

  function RefKey(name: string, st: Stamp): (k: string)
  {
    (if |name| <= 32 then name else name[..32]) + "_" + st.time + "_" + Dec(st.no)
  }

  /** The record a key is stored in. */
  function Padded(k: string): string
    requires |k| <= RE_LEN
  {
    k + Blanks(RE_LEN - |k|)
  }

  // ----- Keys

  /** The keys of one queue are as distinct as the stamps, whatever the texts of the clock. */
  lemma RefKeyInjective(name: string, a: Stamp, b: Stamp)
    requires RefKey(name, a) == RefKey(name, b)
    ensures a == b
  {
    var p := (if |name| <= 32 then name else name[..32]) + "_";
    assert RefKey(name, a) == p + (a.time + ("_" + Dec(a.no)));
    assert RefKey(name, b) == p + (b.time + ("_" + Dec(b.no)));
    SameTail(p, a.time + ("_" + Dec(a.no)), b.time + ("_" + Dec(b.no)));
    LastField(a.time, Dec(a.no), b.time, Dec(b.no));
    ParseIntOfDec(a.no);
    ParseIntOfDec(b.no);
  }

  lemma SameTail(p: string, x: string, y: string)
    requires p + x == p + y
    ensures x == y
  {
    assert (p + x)[|p|..] == x && (p + y)[|p|..] == y;
  }

  lemma LastField(t: string, d: string, t': string, d': string)
    requires t + ("_" + d) == t' + ("_" + d') && '_' !in d && '_' !in d'
    ensures t == t' && d == d'
  {
    NoMarkInside(t, d, t', d');
    NoMarkInside(t', d', t, d);
    var k := t + ("_" + d);
    assert k[..|t|] == t && k[|t| + 1..] == d;
    assert k[..|t'|] == t' && k[|t'| + 1..] == d';
  }

  lemma NoMarkInside(t: string, d: string, t': string, d': string)
    requires t + ("_" + d) == t' + ("_" + d') && '_' !in d
    ensures |t| >= |t'|
  {
    var k := t + ("_" + d);
    assert k[|t'|] == '_';
    assert forall i :: |t| < i < |k| ==> k[i] == d[i - |t| - 1];
  }

  lemma {:induction false} RStripBlanks(s: string, n: nat)
    requires s != "" && !IsSpace(s[|s| - 1])
    ensures RStrip(s + Blanks(n)) == s
  {
    if n == 0 {
      assert s + Blanks(0) == s;
    } else {
      var t := s + Blanks(n);
      assert t[..|t| - 1] == s + Blanks(n - 1) && t[|t| - 1] == ' ';
      RStripBlanks(s, n - 1);
    }
  }

  /** No queue name begins with white space but the bad ones. */
  predicate GoodName(name: string) {
    name == "" || !IsSpace(name[0])
  }

  /** strip() of a record gives the key back exactly when the name begins with no white space. */
  lemma KeySurvivesRecord(name: string, st: Stamp)
    requires |RefKey(name, st)| <= RE_LEN
    ensures GoodName(name) ==> Strip(Padded(RefKey(name, st))) == RefKey(name, st)
    ensures !GoodName(name) ==> forall st2 :: Strip(Padded(RefKey(name, st))) != RefKey(name, st2)
  {
    var k := RefKey(name, st);
    assert !IsSpace(k[|k| - 1]) by { assert k[|k| - 1] == Dec(st.no)[|Dec(st.no)| - 1]; }
    if GoodName(name) {
      assert !IsSpace(k[0]);
      RStripBlanks(k, RE_LEN - |k|);
    } else {
      StripFirst(Padded(k));
      forall st2 ensures Strip(Padded(k)) != RefKey(name, st2) {
        assert IsSpace(RefKey(name, st2)[0]);
      }
    }
  }

  lemma {:induction false} StripFirst(s: string)
    ensures Strip(s) != "" ==> !IsSpace(Strip(s)[0])
  {
    LStripFirst(s);
    RStripPrefix(LStrip(s));
  }

  lemma {:induction false} LStripFirst(s: string)
    ensures LStrip(s) != "" ==> !IsSpace(LStrip(s)[0])
  {
    if s != "" && IsSpace(s[0]) { LStripFirst(s[1..]); }
  }

  lemma {:induction false} RStripPrefix(s: string)
    ensures RStrip(s) <= s
  {
    if s != "" && IsSpace(s[|s| - 1]) { RStripPrefix(s[..|s| - 1]); }
  }

  // ----- The queue

  /** What can fail in put(). */
  datatype PutFault = NoPutFault | PickleFails | AppendFails | DataPutFails | PutCommitFails | CheckpointAfterPutFails

  /** What can fail in get(). */
  datatype GetFault = NoGetFault | ConsumeFails | DataGetFails | DeleteFails | GetCommitFails | CheckpointAfterGetFails

  /** The queue as a value: the records in the order of their numbers, the items, and the last number. */
  datatype State<T> = State(fifo: seq<string>, data: map<string, T>, seqNo: nat)

  // ----- What the calls do

  predicate PutCommits(k: string, fault: PutFault) {
    (fault.NoPutFault? || fault.CheckpointAfterPutFails?) && |k| <= RE_LEN
  }

  /** put() under the key k; one that is there already gets a second record, and its item is overwritten. */
  function PutTo<T>(q: State<T>, item: T, k: string, fault: PutFault): State<T> {
    if fault.PickleFails? then q
    else if !PutCommits(k, fault) then q.(seqNo := q.seqNo + 1)
    else State(q.fifo + [Padded(k)], q.data[k := item], q.seqNo + 1)
  }

  /** What a put does: with no fault, or only one of the checkpoint that follows the commit, the record of its key
      is the last one and the item is under the key; with any other fault, or a key that is too long for a record,
      both tables stay as they were. A number is used up unless the item cannot even be pickled. */
  lemma PutDoes<T>(q: State<T>, item: T, k: string, fault: PutFault)
    ensures var t, stored := PutTo(q, item, k, fault), fault in {NoPutFault, CheckpointAfterPutFails} && |k| <= 128;
            && t.fifo == (if stored then q.fifo + [Padded(k)] else q.fifo)
            && t.data.Keys == (if stored then q.data.Keys + {k} else q.data.Keys)
            && (stored ==> t.data[k] == item)
            && (forall x :: x in q.data && (stored ==> x != k) ==> t.data[x] == q.data[x])
            && t.seqNo == (if fault == PickleFails then q.seqNo else q.seqNo + 1)
  {}

  /** get_raw() finds an item under the key it reads in the first record. */
  predicate HeadFound<T>(q: State<T>) {
    q.fifo != [] && Strip(q.fifo[0]) in q.data
  }

  predicate GetCommits<T>(q: State<T>, fault: GetFault) {
    (fault.NoGetFault? || fault.CheckpointAfterGetFails?) && HeadFound(q)
  }

  function GetFrom<T>(q: State<T>, fault: GetFault): State<T> {
    if GetCommits(q, fault) then q.(fifo := q.fifo[1..], data := q.data - {Strip(q.fifo[0])}) else q
  }

  function Returned<T>(q: State<T>, fault: GetFault): Option<T> {
    if !HeadFound(q) || fault.ConsumeFails? || fault.DataGetFails? || fault.CheckpointAfterGetFails? then None
    else Some(q.data[Strip(q.fifo[0])])
  }

  class VarQueue<T> {
    const name: string
    var fifo: seq<string>
    var data: map<string, T>
    var seqNo: nat

    function Value(): State<T> reads this { State(fifo, data, seqNo) }

    constructor (name: string)
      ensures Value() == State([], map[], 0) && this.name == name
    {
      this.name := name;
      fifo, data, seqNo := [], map[], 0;
    }

    /** A new process opens the tables as the last one left them, and numbers its items from 1 again. */
    method Reopen()
      modifies this`seqNo
      ensures Value() == old(Value()).(seqNo := 0)
    {
      seqNo := 0;
    }

    /** put(): 0 is returned whatever happens inside put_raw(); the item is stored exactly when its
        transaction is committed. */
    method Put(item: T, now: string, fault: PutFault) returns (rc: int)
      modifies this
      ensures rc == if fault.PickleFails? then -1 else 0
      ensures Value() == PutTo(old(Value()), item, RefKey(name, Stamp(now, old(seqNo) + 1)), fault)
    {
      if fault.PickleFails? { return -1; }
      seqNo := seqNo + 1;
      var refKey := RefKey(name, Stamp(now, seqNo));
      if fault.AppendFails? || |refKey| > RE_LEN { return 0; }
      // the view the transaction has of the two tables
      var txFifo := fifo + [Padded(refKey)];
      if fault.DataPutFails? { return 0; }   // the transaction is neither committed nor aborted
      var txData := data[refKey := item];
      if fault.PutCommitFails? { return 0; }
      fifo, data := txFifo, txData;
      return 0;
    }

    /** get(): a committed call removes the head, and returns it unless the checkpoint raises an exception;
        any other leaves the queue as it was, even when it returns the head. */
    method Get(fault: GetFault) returns (item: Option<T>)
      modifies this`fifo, this`data
      ensures item == Returned(old(Value()), fault)
      ensures Value() == GetFrom(old(Value()), fault)
    {
      if fault.ConsumeFails? { return None; }
      if fifo == [] { return None; }
      var refKey := Strip(fifo[0]);
      var txFifo := fifo[1..];
      if fault.DataGetFails? { return None; }
      item := if refKey in data then Some(data[refKey]) else None;
      // a key that is not there makes delete() raise an exception
      if refKey !in data || fault.DeleteFails? || fault.GetCommitFails? { return item; }
      fifo, data := txFifo, data - {refKey};
      if fault.CheckpointAfterGetFails? { return None; }
      return item;
    }
  }

  // ----- The two tables

  function KeySet(keys: seq<string>): set<string> { set k | k in keys }

  /** The records are those of the keys, in their order. */
  ghost predicate Records(fifo: seq<string>, keys: seq<string>) {
    && |fifo| == |keys|
    && forall i :: 0 <= i < |keys| ==> |keys[i]| <= RE_LEN && fifo[i] == Padded(keys[i])
  }

  ghost predicate Distinct(keys: seq<string>) {
    forall i, j :: 0 <= i < j < |keys| ==> keys[i] != keys[j]
  }

  /** The records are those of distinct keys, and these are the keys of the data table. */
  ghost predicate Consistent<T>(q: State<T>, keys: seq<string>) {
    Records(q.fifo, keys) && Distinct(keys) && q.data.Keys == KeySet(keys)
  }

  ghost function Stored<T>(keys: seq<string>, data: map<string, T>): seq<T>
    requires data.Keys == KeySet(keys)
  {
    seq(|keys|, i requires 0 <= i < |keys| => data[keys[i]])
  }

  /** The keys were made of the stamps. */
  ghost predicate Made(name: string, keys: seq<string>, stamps: seq<Stamp>) {
    |keys| == |stamps| && forall i :: 0 <= i < |keys| ==> keys[i] == RefKey(name, stamps[i])
  }

  /** Only an equal stamp makes an equal key. */
  lemma MadeBefore(name: string, keys: seq<string>, stamps: seq<Stamp>, st: Stamp)
    requires Made(name, keys, stamps) && RefKey(name, st) in keys
    ensures st in stamps
  {
    var i :| 0 <= i < |keys| && keys[i] == RefKey(name, st);
    RefKeyInjective(name, stamps[i], st);
  }

  /** The head is found unless the name is a bad one, or its item is missing. */
  lemma HeadKey<T>(name: string, q: State<T>, keys: seq<string>, stamps: seq<Stamp>)
    requires Records(q.fifo, keys) && Made(name, keys, stamps) && q.data.Keys <= KeySet(keys) && keys != []
    ensures HeadFound(q) <==> GoodName(name) && keys[0] in q.data
    ensures GoodName(name) ==> Strip(q.fifo[0]) == keys[0]
  {
    KeySurvivesRecord(name, stamps[0]);
    if !GoodName(name) {
      var k := Strip(q.fifo[0]);
      forall i | 0 <= i < |keys| ensures keys[i] != k { assert RefKey(name, stamps[i]) != k; }
    }
  }

  lemma ItemAppended<T>(q: State<T>, keys: seq<string>, k: string, item: T, no: nat)
    requires Consistent(q, keys) && k !in q.data && |k| <= RE_LEN
    ensures var data' := q.data[k := item];
            && Consistent(State(q.fifo + [Padded(k)], data', no), keys + [k])
            && Stored(keys + [k], data') == Stored(keys, q.data) + [item]
  {}

  lemma HeadRemoved<T>(q: State<T>, keys: seq<string>)
    requires Consistent(q, keys) && keys != []
    ensures var data' := q.data - {keys[0]};
            && Consistent(q.(fifo := q.fifo[1..], data := data'), keys[1..])
            && Stored(keys, q.data) == [q.data[keys[0]]] + Stored(keys[1..], data')
  {
    RestOfKeys(keys);
  }

  /** What get() returns, and when it removes the head, from tables that agree. */
  lemma GetsHead<T>(name: string, q: State<T>, keys: seq<string>, stamps: seq<Stamp>, fault: GetFault)
    requires Consistent(q, keys) && Made(name, keys, stamps) && keys != []
    ensures GetCommits(q, fault) <==> GoodName(name) && (fault.NoGetFault? || fault.CheckpointAfterGetFails?)
    ensures Returned(q, fault) ==
            if GoodName(name) && (fault.NoGetFault? || fault.DeleteFails? || fault.GetCommitFails?)
            then Some(Stored(keys, q.data)[0]) else None
    ensures GetCommits(q, fault) ==>
              && Consistent(GetFrom(q, fault), keys[1..])
              && Stored(keys[1..], GetFrom(q, fault).data) == Stored(keys, q.data)[1..]
  {
    HeadKey(name, q, keys, stamps);
    HeadRemoved(q, keys);
  }

  lemma RestOfKeys(keys: seq<string>)
    requires keys != []
    ensures KeySet(keys) - {keys[0]} <= KeySet(keys[1..])
    ensures Distinct(keys) ==> Distinct(keys[1..]) && KeySet(keys[1..]) == KeySet(keys) - {keys[0]}
  {
    var rest := keys[1..];
    assert keys == [keys[0]] + rest;
    assert forall i :: 0 <= i < |rest| ==> rest[i] == keys[i + 1];
  }

  /** FIFO records are distinct because the stamps are. */
  lemma KeysDistinct<T>(name: string, q: State<T>, keys: seq<string>, stamps: seq<Stamp>, i: nat, j: nat)
    requires Consistent(q, keys) && Made(name, keys, stamps) && i < j < |q.fifo|
    ensures q.fifo[i] != q.fifo[j]
  {
    StripsBack(name, keys[i], stamps[i]);
    StripsBack(name, keys[j], stamps[j]);
  }

  lemma StripsBack(name: string, k: string, st: Stamp)
    requires k == RefKey(name, st) && |k| <= RE_LEN
    ensures RStrip(Padded(k)) == k
  {
    EndsInDigit(name, st);
    RStripBlanks(k, RE_LEN - |k|);
  }

  lemma EndsInDigit(name: string, st: Stamp)
    ensures var k := RefKey(name, st); k != "" && !IsSpace(k[|k| - 1])
  {
    var k := RefKey(name, st);
    assert k[|k| - 1] == Dec(st.no)[|Dec(st.no)| - 1];
  }
}
