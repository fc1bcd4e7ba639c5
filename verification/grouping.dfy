/** Folding the open positions into `summedPositions`, the per-instrument
    summary keyed by instrument name (main.js and logic.js share this code). */
module Grouping {
  import opened Wrappers
  import opened JsNumbers
  import opened Positions

  /** One value of `summedPositions`: the running P/L and the positions of the
      instrument, and, once annotated, its P/L ratio and market status. */
  datatype Group = Group(
    pl: real,
    positions: seq<Position>,
    plRatio: Option<Ratio>,
    marketStatus: Option<string>)

  predicate Distinct(names: seq<string>)
  {
    forall i, j :: 0 <= i < j < |names| ==> names[i] != names[j]
  }

  /** A JavaScript object used as a dictionary: its entries, and its keys in
      the order `for...in` visits them (insertion order, for keys that do not
      look like array indices). */
  datatype Summed = Summed(keys: seq<string>, entries: map<string, Group>)
  {
    ghost predicate Valid()
    {
      Distinct(keys) && forall n :: n in entries <==> n in keys
    }

    /** `summed[name] = group`: a new key goes to the end of the order. */
    function Put(name: string, group: Group): (s: Summed)
      requires Valid()
      ensures s.Valid()
      ensures s.entries == entries[name := group]
      ensures s.keys == if name in entries then keys else keys + [name]
    {
      Summed(if name in entries then keys else keys + [name], entries[name := group])
    }
  }

  // ---------------------------------------------------------------------
  // What the fold computes, stated over the input sequence

  /** The instrument names of `ps`, each once, in order of first appearance. */
  function FirstSeen(ps: seq<Position>): seq<string>
  {
    if ps == [] then []
    else
      var names := FirstSeen(ps[..|ps| - 1]);
      var n := ps[|ps| - 1].instrumentName;
      if n in names then names else names + [n]
  }

  /** The positions of `ps` on instrument `name`, in input order. */
  function Members(ps: seq<Position>, name: string): seq<Position>
  {
    if ps == [] then []
    else
      Members(ps[..|ps| - 1], name)
      + (if ps[|ps| - 1].instrumentName == name then [ps[|ps| - 1]] else [])
  }

  /** The group P/L as the source computes it: the first position's P/L, then
      `Math.round((acc + pl) * 100) / 100` after each further position. */
  function RunningPl(xs: seq<Position>): real
  {
    if xs == [] then 0.0
    else if |xs| == 1 then PositionPl(xs[0])
    else Round2(RunningPl(xs[..|xs| - 1]) + PositionPl(xs[|xs| - 1]))
  }

  /** The plain sum of the per-position P/Ls. */
  function SumPl(xs: seq<Position>): real
  {
    if xs == [] then 0.0 else SumPl(xs[..|xs| - 1]) + PositionPl(xs[|xs| - 1])
  }

  /** The group of instrument `name` after the whole fold over `ps`. */
  function Accumulated(ps: seq<Position>, name: string): Group
  {
    Group(RunningPl(Members(ps, name)), Members(ps, name), None, None)
  }

  lemma MembersSnoc(ps: seq<Position>, p: Position, name: string)
    ensures Members(ps + [p], name) == Members(ps, name) + (if p.instrumentName == name then [p] else [])
  {
    assert (ps + [p])[..|ps|] == ps;
  }

  lemma FirstSeenSnoc(ps: seq<Position>, p: Position)
    ensures FirstSeen(ps + [p]) ==
      if p.instrumentName in FirstSeen(ps) then FirstSeen(ps) else FirstSeen(ps) + [p.instrumentName]
  {
    assert (ps + [p])[..|ps|] == ps;
  }

  /** The keys are distinct, and an instrument has a key exactly when at least
      one position is on it. */
  lemma {:induction false} FirstSeenKeys(ps: seq<Position>)
    ensures Distinct(FirstSeen(ps))
    ensures forall n :: n in FirstSeen(ps) <==> Members(ps, n) != []
  {
    if ps != [] {
      var qs, p := ps[..|ps| - 1], ps[|ps| - 1];
      assert ps == qs + [p];
      FirstSeenKeys(qs);
      FirstSeenSnoc(qs, p);
      forall n ensures Members(ps, n) == Members(qs, n) + (if p.instrumentName == n then [p] else []) {
        MembersSnoc(qs, p, n);
      }
    }
  }

  /** Every position lands in the group of its own instrument and in no other. */
  lemma {:induction false} MembersAreFilter(ps: seq<Position>, name: string, p: Position)
    ensures p in Members(ps, name) <==> p in ps && p.instrumentName == name
  {
    if ps != [] {
      var qs := ps[..|ps| - 1];
      assert ps == qs + [ps[|ps| - 1]];
      MembersAreFilter(qs, name, p);
    }
  }

  /** The indices of the positions of `ps` on instrument `name`, ascending. */
  function MemberIndices(ps: seq<Position>, name: string): seq<nat>
  {
    if ps == [] then []
    else
      MemberIndices(ps[..|ps| - 1], name)
      + (if ps[|ps| - 1].instrumentName == name then [|ps| - 1] else [])
  }

  /** Each group keeps the input order: its k-th position is the k-th position
      of the input on that instrument, at strictly increasing input indices,
      and every position on the instrument is among them. */
  lemma {:induction false} MembersKeepOrder(ps: seq<Position>, name: string)
    ensures |MemberIndices(ps, name)| == |Members(ps, name)|
    ensures forall k :: 0 <= k < |MemberIndices(ps, name)| ==>
      MemberIndices(ps, name)[k] < |ps| && ps[MemberIndices(ps, name)[k]] == Members(ps, name)[k]
    ensures forall k, l :: 0 <= k < l < |MemberIndices(ps, name)| ==>
      MemberIndices(ps, name)[k] < MemberIndices(ps, name)[l]
    ensures forall i :: 0 <= i < |ps| && ps[i].instrumentName == name ==> i in MemberIndices(ps, name)
  {
    if ps != [] {
      var qs, last := ps[..|ps| - 1], ps[|ps| - 1];
      MembersKeepOrder(qs, name);
      var idx, oidx := MemberIndices(ps, name), MemberIndices(qs, name);
      var ms, oms := Members(ps, name), Members(qs, name);
      var hit := last.instrumentName == name;
      assert idx == oidx + (if hit then [|qs|] else []);
      assert ms == oms + (if hit then [last] else []);
      forall k | 0 <= k < |oidx| ensures oidx[k] < |ps| && ps[oidx[k]] == ms[k] {
        assert ps[oidx[k]] == qs[oidx[k]];
      }
      forall i | 0 <= i < |ps| && ps[i].instrumentName == name ensures i in idx {
        if i < |qs| {
          assert qs[i] == ps[i];
          assert i in oidx;
        }
      }
    }
  }

  /** A group's market status comes from its earliest position: the first
      member is the first position of the input on that instrument. */
  lemma GroupHeadIsEarliest(ps: seq<Position>, name: string)
    requires Members(ps, name) != []
    ensures exists i :: 0 <= i < |ps| && ps[i] == Members(ps, name)[0] && ps[i].instrumentName == name
                        && (forall j :: 0 <= j < i ==> ps[j].instrumentName != name)
  {
    MembersKeepOrder(ps, name);
    var idx := MemberIndices(ps, name);
    var i := idx[0];
    assert ps[i] == Members(ps, name)[0];
    MembersAreFilter(ps, name, ps[i]);
  }

  /** An instrument seen in a prefix of the input keeps its place in the key
      order: the keys of a prefix are a prefix of the keys. */
  lemma {:induction false} FirstSeenPrefix(ps: seq<Position>, i: nat)
    requires i <= |ps|
    ensures FirstSeen(ps[..i]) <= FirstSeen(ps)
    decreases |ps| - i
  {
    if i < |ps| {
      FirstSeenPrefix(ps, i + 1);
      assert ps[..i + 1] == ps[..i] + [ps[i]];
      FirstSeenSnoc(ps[..i], ps[i]);
    } else {
      assert ps[..i] == ps;
    }
  }

  /** Re-rounding after every addition is harmless in exact arithmetic: each
      term is a cent value, so the running sum equals the plain sum. */
  lemma {:induction false} RunningPlIsSum(xs: seq<Position>)
    ensures RunningPl(xs) == SumPl(xs)
    ensures IsCents(SumPl(xs))
  {
    if |xs| == 1 {
      assert xs[..0] == [];
    } else if |xs| > 1 {
      var ys := xs[..|xs| - 1];
      RunningPlIsSum(ys);
      CentsSum(SumPl(ys), PositionPl(xs[|xs| - 1]));
    } else {
      assert 0.0 * 100.0 == 0 as real;
    }
  }

  // ---------------------------------------------------------------------
  // Partition of the input among the groups

  /** The positions of `ps` whose instrument is in `sel`, in input order. */
  function Only(ps: seq<Position>, sel: set<string>): seq<Position>
  {
    if ps == [] then []
    else Only(ps[..|ps| - 1], sel) + (if ps[|ps| - 1].instrumentName in sel then [ps[|ps| - 1]] else [])
  }

  /** The total size of the groups of the names in `sel`, over `names`. */
  function GroupSizes(names: seq<string>, ps: seq<Position>, sel: set<string>): nat
  {
    if names == [] then 0
    else
      GroupSizes(names[..|names| - 1], ps, sel)
      + (if names[|names| - 1] in sel then |Members(ps, names[|names| - 1])| else 0)
  }

  lemma {:induction false} GroupSizesSnoc(names: seq<string>, qs: seq<Position>, p: Position, sel: set<string>)
    requires Distinct(names)
    ensures GroupSizes(names, qs + [p], sel) ==
      GroupSizes(names, qs, sel) + (if p.instrumentName in names && p.instrumentName in sel then 1 else 0)
  {
    if names != [] {
      var ls, m := names[..|names| - 1], names[|names| - 1];
      var n := p.instrumentName;
      assert names == ls + [m];
      assert Distinct(ls) && m !in ls;
      GroupSizesSnoc(ls, qs, p, sel);
      MembersSnoc(qs, p, m);
      var here := if n == m && m in sel then 1 else 0;
      assert (if m in sel then |Members(qs + [p], m)| else 0) == (if m in sel then |Members(qs, m)| else 0) + here;
      assert n in names <==> n in ls || n == m;
      assert (if n in names && n in sel then 1 else 0) == (if n in ls && n in sel then 1 else 0) + here;
    }
  }

  /** The groups of the instruments in `sel` hold exactly the positions on
      those instruments: no position is lost or counted twice. */
  lemma {:induction false} GroupsPartition(ps: seq<Position>, sel: set<string>)
    ensures GroupSizes(FirstSeen(ps), ps, sel) == |Only(ps, sel)|
  {
    if ps != [] {
      var qs, p := ps[..|ps| - 1], ps[|ps| - 1];
      assert ps == qs + [p];
      GroupsPartition(qs, sel);
      FirstSeenKeys(qs);
      FirstSeenSnoc(qs, p);
      GroupSizesSnoc(FirstSeen(qs), qs, p, sel);
      var n := p.instrumentName;
      if n !in FirstSeen(qs) {
        MembersSnoc(qs, p, n);
        var names := FirstSeen(qs) + [n];
        assert names[..|names| - 1] == FirstSeen(qs);
      }
    }
  }

  lemma {:induction false} OnlyAll(ps: seq<Position>, sel: set<string>)
    requires forall i :: 0 <= i < |ps| ==> ps[i].instrumentName in sel
    ensures Only(ps, sel) == ps
  {
    if ps != [] {
      OnlyAll(ps[..|ps| - 1], sel);
    }
  }

  /** Group sizes add up to the number of positions. */
  lemma GroupSizesSumToInput(ps: seq<Position>)
    ensures GroupSizes(FirstSeen(ps), ps, set n | n in FirstSeen(ps)) == |ps|
  {
    var all := set n | n in FirstSeen(ps);
    FirstSeenKeys(ps);
    forall i | 0 <= i < |ps| ensures ps[i].instrumentName in all {
      MembersAreFilter(ps, ps[i].instrumentName, ps[i]);
    }
    OnlyAll(ps, all);
    GroupsPartition(ps, all);
  }

  // ---------------------------------------------------------------------
  // The loops of the source

  /** The group of `name` after one more position `p` has been folded in. */
  function AddedTo(qs: seq<Position>, p: Position, name: string): Group
  {
    var g := Accumulated(qs, name);
    if p.instrumentName != name then g
    else if Members(qs, name) == [] then Group(PositionPl(p), [p], None, None)
    else g.(pl := Round2(g.pl + PositionPl(p)), positions := g.positions + [p])
  }

  lemma AccumulatedSnoc(qs: seq<Position>, p: Position, name: string)
    ensures Accumulated(qs + [p], name) == AddedTo(qs, p, name)
  {
    MembersSnoc(qs, p, name);
    var ms := Members(qs + [p], name);
    if p.instrumentName != name {
      assert ms == Members(qs, name);
    } else if Members(qs, name) == [] {
      assert ms == [p];
      assert RunningPl(ms) == PositionPl(p);
    } else {
      assert |ms| > 1 && ms[|ms| - 1] == p;
      assert ms[..|ms| - 1] == Members(qs, name);
      assert RunningPl(ms) == Round2(RunningPl(Members(qs, name)) + PositionPl(p));
    }
  }

  /** `summed` is the dictionary the fold has built from `qs`. */
  ghost predicate Folded(summed: Summed, qs: seq<Position>)
  {
    && summed.Valid()
    && summed.keys == FirstSeen(qs)
    && forall n :: n in summed.entries ==> summed.entries[n] == Accumulated(qs, n)
  }

  /** `g` is the new value of `p`'s group after one step of the fold. */
  ghost predicate StepValue(entries: map<string, Group>, p: Position, g: Group)
  {
    if p.instrumentName in entries then
      var old_g := entries[p.instrumentName];
      g == old_g.(pl := Round2(old_g.pl + PositionPl(p)), positions := old_g.positions + [p])
    else
      g == Group(PositionPl(p), [p], None, None)
  }

  /** One step of the fold: the updated or new group of `p`'s instrument. */
  lemma FoldStep(qs: seq<Position>, p: Position, before: Summed, g: Group)
    requires Folded(before, qs)
    requires StepValue(before.entries, p, g)
    ensures Folded(before.Put(p.instrumentName, g), qs + [p])
  {
    var name := p.instrumentName;
    StepKeys(qs, p, before, g);
    IsKeyIffMember(qs, name);
    assert name in before.entries <==> Members(qs, name) != [];
    StepGroup(qs, p, before.entries, g);
    StepEntries(qs, p, before.entries, g);
  }

  lemma StepKeys(qs: seq<Position>, p: Position, before: Summed, g: Group)
    requires before.Valid() && before.keys == FirstSeen(qs)
    ensures before.Put(p.instrumentName, g).keys == FirstSeen(qs + [p])
  {
    FirstSeenSnoc(qs, p);
  }

  lemma StepGroup(qs: seq<Position>, p: Position, entries: map<string, Group>, g: Group)
    requires p.instrumentName in entries <==> Members(qs, p.instrumentName) != []
    requires p.instrumentName in entries ==> entries[p.instrumentName] == Accumulated(qs, p.instrumentName)
    requires StepValue(entries, p, g)
    ensures g == Accumulated(qs + [p], p.instrumentName)
  {
    var name := p.instrumentName;
    var acc := Accumulated(qs, name);
    if name in entries {
      assert entries[name] == acc && Members(qs, name) != [];
      assert g == acc.(pl := Round2(acc.pl + PositionPl(p)), positions := acc.positions + [p]);
    } else {
      assert Members(qs, name) == [];
      assert g == Group(PositionPl(p), [p], None, None);
    }
    assert g == AddedTo(qs, p, name);
    AccumulatedSnoc(qs, p, name);
  }

  lemma StepEntries(qs: seq<Position>, p: Position, entries: map<string, Group>, g: Group)
    requires forall n :: n in entries ==> entries[n] == Accumulated(qs, n)
    requires g == Accumulated(qs + [p], p.instrumentName)
    ensures forall n :: n in entries[p.instrumentName := g] ==> entries[p.instrumentName := g][n] == Accumulated(qs + [p], n)
  {
    forall n | n in entries && n != p.instrumentName ensures entries[n] == Accumulated(qs + [p], n) {
      OtherGroup(qs, p, entries, n);
    }
  }

  lemma IsKeyIffMember(qs: seq<Position>, name: string)
    ensures name in FirstSeen(qs) <==> Members(qs, name) != []
  {
    FirstSeenKeys(qs);
  }

  lemma OtherGroup(qs: seq<Position>, p: Position, entries: map<string, Group>, n: string)
    requires n in entries && n != p.instrumentName && entries[n] == Accumulated(qs, n)
    ensures entries[n] == Accumulated(qs + [p], n)
  {
    AccumulatedSnoc(qs, p, n);
  }

  /** The `forEach` over the open positions: each position's P/L is added to
      its instrument's group, which is created on the instrument's first
      position. */
  method AggregatePositions(ps: seq<Position>) returns (summed: Summed)
    ensures summed.Valid()
    ensures summed.keys == FirstSeen(ps)
    ensures forall n :: n in summed.entries ==> summed.entries[n] == Accumulated(ps, n)
    ensures forall n :: n in summed.entries ==> summed.entries[n].positions != []
  {
    summed := Summed([], map[]);
    for i := 0 to |ps|
      invariant Folded(summed, ps[..i])
    {
      var position := ps[i];
      var name := position.instrumentName;
      var pl := PositionPl(position);
      var g: Group;
      if name in summed.entries {
        g := summed.entries[name];
        g := g.(pl := Round2(g.pl + pl), positions := g.positions + [position]);
      } else {
        g := Group(pl, [position], None, None);
      }
      FoldStep(ps[..i], position, summed, g);
      TakeOneMore(ps, i);
      summed := summed.Put(name, g);
    }
    assert ps[..|ps|] == ps;
    FoldedGroupsNonEmpty(summed, ps);
  }

  lemma TakeOneMore<T>(s: seq<T>, i: nat)
    requires i < |s|
    ensures s[..i + 1] == s[..i] + [s[i]]
  {
  }

  lemma FoldedGroupsNonEmpty(summed: Summed, ps: seq<Position>)
    requires Folded(summed, ps)
    ensures forall n :: n in summed.entries ==> summed.entries[n].positions != []
  {
    FirstSeenKeys(ps);
  }

  /** The group with `plRatio` and `marketStatus` filled in. */
  function Annotated(g: Group, balance: real): Group
    requires g.positions != []
  {
    g.(plRatio := Some(Divide(g.pl, balance)), marketStatus := Some(g.positions[0].marketStatus))
  }

  /** The `for...in` loop that stores each group's P/L ratio against the one
      balance of the run, and the market status of its first position. */
  method AnnotateGroups(summed: Summed, balance: real) returns (annotated: Summed)
    requires summed.Valid()
    requires forall n :: n in summed.entries ==> summed.entries[n].positions != []
    ensures annotated.Valid()
    ensures annotated.keys == summed.keys
    ensures annotated.entries.Keys == summed.entries.Keys
    ensures forall n :: n in annotated.entries ==> annotated.entries[n] == Annotated(summed.entries[n], balance)
  {
    annotated := summed;
    var keys := summed.keys;
    for i := 0 to |keys|
      invariant annotated.Valid()
      invariant annotated.keys == keys
      invariant annotated.entries.Keys == summed.entries.Keys
      invariant forall n :: n in summed.entries ==>
        annotated.entries[n] == if n in keys[..i] then Annotated(summed.entries[n], balance) else summed.entries[n]
    {
      var name := keys[i];
      TakeOneMore(keys, i);
      assert name !in keys[..i];
      var g := annotated.entries[name];
      annotated := annotated.Put(name, g.(plRatio := Some(Divide(g.pl, balance)), marketStatus := Some(g.positions[0].marketStatus)));
    }
    assert keys[..|keys|] == keys;
  }
}
