/** The gates of the server: groups of RPC names that an operator closes and opens, and the index of the
    names that are blocked, each under the gate that blocks it. */
module Gates {
  function LowerChar(c: char): char {
    if 'A' <= c <= 'Z' then (c as int + 32) as char else c
  }

  /** The name in lower case: the capitals, and only they, are replaced, each by its small letter. */
  function Lower(s: string): (r: string)
    ensures |r| == |s|
    ensures forall i :: 0 <= i < |s| ==>
              if s[i] in "ABCDEFGHIJKLMNOPQRSTUVWXYZ" then s[i] as int + 32 == r[i] as int else r[i] == s[i]
  {
    seq(|s|, i requires 0 <= i < |s| => LowerChar(s[i]))
  }

  function Names(rpcs: seq<string>): set<string> {
    set i | 0 <= i < |rpcs| :: Lower(rpcs[i])
  }

  /** The names of a group, whatever their case. */
  lemma NamesAreLower(rpcs: seq<string>, k: string)
    ensures k in Names(rpcs) <==> exists i :: 0 <= i < |rpcs| && Lower(rpcs[i]) == k
  {}

  type Groups = map<string, seq<string>>

  datatype GateState = GateState(closed: set<string>, blocked: map<string, string>)

  datatype Command = Command(group: string, open: bool)

  datatype Outcome = Done | NoSuchGroup | AlreadyThere | Strange

  function Blocking(m: map<string, string>, names: set<string>, group: string): map<string, string> {
    map k | k in m.Keys + names :: if k in names then group else m[k]
  }

  /** The state after a command, and its outcome. */
  function Apply(gs: Groups, s: GateState, c: Command): (GateState, Outcome) {
    var g := Lower(c.group);
    if g !in gs then (s, NoSuchGroup)
    else if c.open == (g !in s.closed) then (s, AlreadyThere)
    else
      var names := Names(gs[g]);
      if c.open then
        (GateState(s.closed - {g}, s.blocked - names), if names <= s.blocked.Keys then Done else Strange)
      else (GateState(s.closed + {g}, Blocking(s.blocked, names, g)), Done)
  }

  lemma NamesGrow(rpcs: seq<string>, i: nat)
    requires i < |rpcs|
    ensures Names(rpcs[..i + 1]) == Names(rpcs[..i]) + {Lower(rpcs[i])}
  {
    assert rpcs[..i + 1][i] == rpcs[i];
    assert forall j :: 0 <= j < i ==> rpcs[..i + 1][j] == rpcs[..i][j];
  }

  datatype Permission = Allowed | RpcGateClosed | AlwaysBlocked | BlockedBy(gate: string)

  class Server {
    const dictOfRPCgroups: Groups
    const dictRPCsAlwaysBlocked: set<string>
    var b_rpc_allowed: bool
    var dictGatesClosed: set<string>
    var dictRPCsBlockedByGates: map<string, string>
    ghost var commands: seq<Command>   // the commands given so far

    function Value(): GateState reads this { GateState(dictGatesClosed, dictRPCsBlockedByGates) }

    /** The gates and the index are where the commands have led. */
    ghost predicate Valid() reads this { Value() == After(dictOfRPCgroups, OPEN, commands) }

    constructor (groups: Groups, alwaysBlocked: set<string>)
      ensures Valid() && commands == []
      ensures dictOfRPCgroups == groups && dictRPCsAlwaysBlocked == alwaysBlocked
      ensures Value() == GateState({}, map[]) && b_rpc_allowed
    {
      dictOfRPCgroups, dictRPCsAlwaysBlocked := groups, alwaysBlocked;
      dictGatesClosed, dictRPCsBlockedByGates, b_rpc_allowed, commands := {}, map[], true, [];
    }

    /** A name that occurs twice in its group is remembered when it is first unblocked. */
    method Unblock(rpcNames: seq<string>) returns (strange: bool)
      modifies this`dictRPCsBlockedByGates
      ensures dictRPCsBlockedByGates == old(dictRPCsBlockedByGates) - Names(rpcNames)
      ensures strange <==> !(Names(rpcNames) <= old(dictRPCsBlockedByGates).Keys)
    {
      strange := false;
      var done: set<string> := {};
      for i := 0 to |rpcNames|
        invariant dictRPCsBlockedByGates == old(dictRPCsBlockedByGates) - Names(rpcNames[..i])
        invariant done == Names(rpcNames[..i]) * old(dictRPCsBlockedByGates).Keys
        invariant strange <==> !(Names(rpcNames[..i]) <= old(dictRPCsBlockedByGates).Keys)
      {
        NamesGrow(rpcNames, i);
        var name := Lower(rpcNames[i]);
        if name in dictRPCsBlockedByGates {
          dictRPCsBlockedByGates := dictRPCsBlockedByGates - {name};
          done := done + {name};
        } else if name !in done {
          strange := true;
        }
      }
      assert rpcNames[..|rpcNames|] == rpcNames;
    }

    method Block(rpcNames: seq<string>, groupName: string)
      modifies this`dictRPCsBlockedByGates
      ensures dictRPCsBlockedByGates == Blocking(old(dictRPCsBlockedByGates), Names(rpcNames), groupName)
    {
      for i := 0 to |rpcNames|
        invariant dictRPCsBlockedByGates == Blocking(old(dictRPCsBlockedByGates), Names(rpcNames[..i]), groupName)
      {
        NamesGrow(rpcNames, i);
        dictRPCsBlockedByGates := dictRPCsBlockedByGates[Lower(rpcNames[i]) := groupName];
      }
      assert rpcNames[..|rpcNames|] == rpcNames;
    }

    method AssignRPCsGroupGateState(group: string, open: bool) returns (r: Outcome)
      requires Valid()
      modifies this`dictGatesClosed, this`dictRPCsBlockedByGates, this`commands
      ensures Valid() && commands == old(commands) + [Command(group, open)]
      ensures (Value(), r) == Apply(dictOfRPCgroups, old(Value()), Command(group, open))
    {
      commands := commands + [Command(group, open)];
      assert commands[..|commands| - 1] == old(commands);
      var groupName := Lower(group);
      if groupName !in dictOfRPCgroups { return NoSuchGroup; }
      var isClosed := groupName in dictGatesClosed;
      if open && !isClosed { return AlreadyThere; }
      if !open && isClosed { return AlreadyThere; }
      var rpcNames := dictOfRPCgroups[groupName];
      if open {
        var strange := Unblock(rpcNames);
        dictGatesClosed := dictGatesClosed - {groupName};
        return if strange then Strange else Done;
      }
      Block(rpcNames, groupName);
      dictGatesClosed := dictGatesClosed + {groupName};
      r := Done;
    }

    /** The server is open or not to RPCs; every name can be blocked; and the gates block those of their groups.
        With disjoint groups a name is allowed exactly when no closed group has a pattern that it matches. */
    method IsThisRPCallowed(rpc: string, isRegProc: bool) returns (r: Permission)
      requires Valid()
      ensures r.RpcGateClosed? <==> !b_rpc_allowed && !isRegProc
      ensures r.AlwaysBlocked? <==> (b_rpc_allowed || isRegProc) && Lower(rpc) in dictRPCsAlwaysBlocked
      ensures r.Allowed? || r.BlockedBy? <==> (b_rpc_allowed || isRegProc) && Lower(rpc) !in dictRPCsAlwaysBlocked
      ensures r.BlockedBy? || r.Allowed? ==>
                (r.BlockedBy? <==> HasEntry(Value(), Lower(rpc)))
      ensures r.BlockedBy? ==>
                && r.gate in dictGatesClosed && r.gate in dictOfRPCgroups
                && exists p :: Matches(Lower(rpc), p) && p in Names(dictOfRPCgroups[r.gate])
      ensures r.BlockedBy? && Lower(rpc) in dictRPCsBlockedByGates ==> r.gate == dictRPCsBlockedByGates[Lower(rpc)]
      ensures Disjoint(dictOfRPCgroups) ==>
                (r.Allowed? <==> && (b_rpc_allowed || isRegProc) && Lower(rpc) !in dictRPCsAlwaysBlocked
                                 && !IsShut(dictOfRPCgroups, dictGatesClosed, Lower(rpc)))
    {
      if !b_rpc_allowed && !isRegProc { return RpcGateClosed; }
      var rpcName := Lower(rpc);
      AlwaysJustified(dictOfRPCgroups, commands);
      if rpcName in dictRPCsAlwaysBlocked { return AlwaysBlocked; }
      if Disjoint(dictOfRPCgroups) { BlockedIff(dictOfRPCgroups, commands, rpcName); }
      assert Matches(rpcName, rpcName);
      if rpcName !in dictRPCsBlockedByGates {
        if |rpcName| <= 5 { return Allowed; }
        var prefix := rpcName[..5] + "*";
        assert Matches(rpcName, prefix) && forall p :: Matches(rpcName, p) && p != rpcName ==> p == prefix;
        if prefix !in dictRPCsBlockedByGates { return Allowed; }
        rpcName := prefix;
      }
      r := BlockedBy(dictRPCsBlockedByGates[rpcName]);
    }
  }

  /** An entry of the index is for the name: it is the name, or its first five characters with a star. */
  predicate Matches(name: string, p: string) {
    p == name || (|name| > 5 && |p| == 6 && p[5] == '*' && p[..5] == name[..5])
  }

  // ----- The index and the groups

  function After(gs: Groups, s: GateState, cs: seq<Command>): GateState {
    if cs == [] then s else Apply(gs, After(gs, s, cs[..|cs| - 1]), cs[|cs| - 1]).0
  }

  const OPEN := GateState({}, map[])

  /** A command names a group or not, and changes its gate or finds it so; then the names of the group are under
      its gate, or have no entry, and nothing else changes. */
  lemma CommandDoes(gs: Groups, s: GateState, c: Command)
    ensures var t, r, g := Apply(gs, s, c).0, Apply(gs, s, c).1, Lower(c.group);
            && (r == NoSuchGroup <==> g !in gs)
            && (r == AlreadyThere <==> g in gs && (g in s.closed <==> !c.open))
            && (r == NoSuchGroup || r == AlreadyThere ==> t == s)
            && (g in gs ==> (g in t.closed <==> !c.open))
            && (forall h :: h != g ==> (h in t.closed <==> h in s.closed))
            && (r == Done || r == Strange ==>
                  && (forall k :: k in Names(gs[g]) ==>
                                    if c.open then k !in t.blocked else k in t.blocked && t.blocked[k] == g)
                  && (forall k :: k !in Names(gs[g]) ==> (k in t.blocked <==> k in s.blocked))
                  && (forall k :: k !in Names(gs[g]) && k in s.blocked ==> t.blocked[k] == s.blocked[k])
                  && (r == Strange <==> c.open && exists k :: k in Names(gs[g]) && k !in s.blocked))
  {}

  /** Every blocked name is under a closed group that contains it. */
  ghost predicate Justified(gs: Groups, s: GateState) {
    && s.closed <= gs.Keys && (forall g :: g in s.closed ==> Lower(g) == g)
    && forall k :: k in s.blocked ==> s.blocked[k] in s.closed && k in Names(gs[s.blocked[k]])
  }

  /** Every name of a closed group is blocked, under that group. */
  ghost predicate Complete(gs: Groups, s: GateState) {
    s.closed <= gs.Keys
    && forall g, k :: g in s.closed && k in Names(gs[g]) ==> k in s.blocked && s.blocked[k] == g
  }

  /** A group that a command can name contains the name k. */
  ghost predicate InGroup(gs: Groups, g: string, k: string) {
    g in gs && Lower(g) == g && k in Names(gs[g])
  }

  /** No name, whatever its case, is in two such groups. */
  ghost predicate Disjoint(gs: Groups) {
    forall g, h, k :: InGroup(gs, g, k) && InGroup(gs, h, k) ==> g == h
  }

  lemma LowerTwice(s: string)
    ensures Lower(Lower(s)) == Lower(s)
  {}

  lemma {:induction false} AlwaysJustified(gs: Groups, cs: seq<Command>)
    ensures Justified(gs, After(gs, OPEN, cs))
  {
    if cs == [] {
    } else {
      var s := After(gs, OPEN, cs[..|cs| - 1]);
      AlwaysJustified(gs, cs[..|cs| - 1]);
      StepJustified(gs, s, cs[|cs| - 1]);
    }
  }

  lemma StepJustified(gs: Groups, s: GateState, c: Command)
    requires Justified(gs, s)
    ensures Justified(gs, Apply(gs, s, c).0)
  {
    LowerTwice(c.group);
  }

  lemma OpenComplete(gs: Groups, s: GateState, g: string)
    requires Disjoint(gs) && Justified(gs, s) && Complete(gs, s) && g in s.closed
    ensures Names(gs[g]) <= s.blocked.Keys
    ensures Complete(gs, GateState(s.closed - {g}, s.blocked - Names(gs[g])))
  {
    var t := GateState(s.closed - {g}, s.blocked - Names(gs[g]));
    forall h, k | h in t.closed && k in Names(gs[h]) ensures k in t.blocked && t.blocked[k] == h {
      if k in Names(gs[g]) { assert InGroup(gs, g, k) && InGroup(gs, h, k); }
    }
  }

  lemma CloseComplete(gs: Groups, s: GateState, g: string)
    requires Disjoint(gs) && Justified(gs, s) && Complete(gs, s) && g in gs && Lower(g) == g
    ensures Complete(gs, GateState(s.closed + {g}, Blocking(s.blocked, Names(gs[g]), g)))
  {
    var t := GateState(s.closed + {g}, Blocking(s.blocked, Names(gs[g]), g));
    forall h, k | h in t.closed && k in Names(gs[h]) ensures k in t.blocked && t.blocked[k] == h {
      if k in Names(gs[g]) { assert InGroup(gs, g, k) && InGroup(gs, h, k); }
    }
  }

  lemma StepComplete(gs: Groups, s: GateState, c: Command)
    requires Disjoint(gs) && Justified(gs, s) && Complete(gs, s)
    ensures Complete(gs, Apply(gs, s, c).0) && Apply(gs, s, c).1 != Strange
  {
    var g := Lower(c.group);
    LowerTwice(c.group);
    if g in gs && c.open && g in s.closed { OpenComplete(gs, s, g); }
    if g in gs && !c.open && g !in s.closed { CloseComplete(gs, s, g); }
  }

  lemma {:induction false} AlwaysComplete(gs: Groups, cs: seq<Command>)
    requires Disjoint(gs)
    ensures Complete(gs, After(gs, OPEN, cs))
    ensures cs != [] ==> Apply(gs, After(gs, OPEN, cs[..|cs| - 1]), cs[|cs| - 1]).1 != Strange
  {
    if cs == [] {
    } else {
      AlwaysJustified(gs, cs[..|cs| - 1]);
      AlwaysComplete(gs, cs[..|cs| - 1]);
      StepComplete(gs, After(gs, OPEN, cs[..|cs| - 1]), cs[|cs| - 1]);
    }
  }

  /** Two groups with a name in common are enough to unblock a name of a closed group. */
  lemma OverlapBreaks(gs: Groups, g: string, h: string, k: string)
    requires InGroup(gs, g, k) && InGroup(gs, h, k) && g != h
    ensures var s := After(gs, OPEN, [Command(g, false), Command(h, false), Command(g, true)]);
            h in s.closed && k !in s.blocked
  {
    var a, b, c := Command(g, false), Command(h, false), Command(g, true);
    assert [a, b, c][..2] == [a, b] && [a, b][..1] == [a] && [a][..0] == [];
    var s1 := Apply(gs, OPEN, a).0;
    var s2 := Apply(gs, s1, b).0;
    assert After(gs, OPEN, [a]) == s1 && After(gs, OPEN, [a, b]) == s2;
  }

  /** The index has every name of every closed group, whatever commands are given, exactly when no two
      groups have a name in common. */
  lemma IndexExactIff(gs: Groups)
    ensures (forall cs :: Complete(gs, After(gs, OPEN, cs))) <==> Disjoint(gs)
  {
    if Disjoint(gs) {
      forall cs ensures Complete(gs, After(gs, OPEN, cs)) { AlwaysComplete(gs, cs); }
    } else {
      var g, h, k :| InGroup(gs, g, k) && InGroup(gs, h, k) && g != h;
      OverlapBreaks(gs, g, h, k);
      assert !Complete(gs, After(gs, OPEN, [Command(g, false), Command(h, false), Command(g, true)]));
    }
  }

  /** The index has an entry for the name. */
  ghost predicate HasEntry(s: GateState, name: string) {
    exists p :: Matches(name, p) && p in s.blocked
  }

  /** A closed group contains the name, or its first five characters with a star. */
  ghost predicate IsShut(gs: Groups, closed: set<string>, name: string) {
    exists g, p :: g in closed && Matches(name, p) && InGroup(gs, g, p)
  }

  lemma EntryIff(gs: Groups, s: GateState, name: string)
    requires Justified(gs, s) && Complete(gs, s)
    ensures HasEntry(s, name) <==> IsShut(gs, s.closed, name)
  {
    if HasEntry(s, name) {
      var p :| Matches(name, p) && p in s.blocked;
      assert InGroup(gs, s.blocked[p], p);
    }
    if IsShut(gs, s.closed, name) {
      var g, p :| g in s.closed && Matches(name, p) && InGroup(gs, g, p);
      assert p in s.blocked;
    }
  }

  /** With disjoint groups, after any commands, a name has an entry exactly when it is shut; and the gate of an
      entry is closed and contains it. */
  lemma BlockedIff(gs: Groups, cs: seq<Command>, name: string)
    requires Disjoint(gs)
    ensures var s := After(gs, OPEN, cs);
            && (HasEntry(s, name) <==> IsShut(gs, s.closed, name))
            && forall p :: p in s.blocked ==> s.blocked[p] in s.closed && InGroup(gs, s.blocked[p], p)
  {
    AlwaysJustified(gs, cs);
    AlwaysComplete(gs, cs);
    EntryIff(gs, After(gs, OPEN, cs), name);
  }
}
