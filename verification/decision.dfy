/** The stop-loss decision: which instruments breach the loss threshold, and
    the closure instructions for all of their positions. */
module Decision {
  import opened Wrappers
  import opened JsNumbers
  import opened Positions
  import opened Grouping

  /** The per-group test of the source: `plRatio < -0.01` and the market
      status is exactly "TRADEABLE". A group not yet annotated fails it, as
      `undefined` fails both comparisons. */
  predicate ShouldClose(g: Group)
  {
    && g.plRatio.Some? && Below(g.plRatio.value, -0.01)
    && g.marketStatus == Some("TRADEABLE")
  }

  /** One closure instruction per position, in order. */
  function Instructions(xs: seq<Position>): (cs: seq<ClosureInstruction>)
    ensures |cs| == |xs|
    ensures forall k :: 0 <= k < |xs| ==> cs[k] == Instruction(xs[k])
  {
    if xs == [] then [] else Instructions(xs[..|xs| - 1]) + [Instruction(xs[|xs| - 1])]
  }

  /** `positionsToClose` after the nested loops have visited `keys`. */
  function SelectFrom(keys: seq<string>, entries: map<string, Group>): seq<ClosureInstruction>
    requires forall k :: 0 <= k < |keys| ==> keys[k] in entries
  {
    if keys == [] then []
    else
      var g := entries[keys[|keys| - 1]];
      SelectFrom(keys[..|keys| - 1], entries) + (if ShouldClose(g) then Instructions(g.positions) else [])
  }

  /** The nested loops that build `positionsToClose`: for each instrument in
      key order that should be closed, one instruction per position. */
  method SelectPositionsToClose(summed: Summed) returns (toClose: seq<ClosureInstruction>)
    requires forall k :: 0 <= k < |summed.keys| ==> summed.keys[k] in summed.entries
    ensures toClose == SelectFrom(summed.keys, summed.entries)
  {
    toClose := [];
    var keys := summed.keys;
    for i := 0 to |keys|
      invariant toClose == SelectFrom(keys[..i], summed.entries)
    {
      var g := summed.entries[keys[i]];
      assert keys[..i + 1][..i] == keys[..i];
      if ShouldClose(g) {
        var members := g.positions;
        for j := 0 to |members|
          invariant toClose == SelectFrom(keys[..i], summed.entries) + Instructions(members[..j])
        {
          assert members[..j + 1][..j] == members[..j];
          toClose := toClose + [Instruction(members[j])];
        }
        assert members[..|members|] == members;
      }
    }
    assert keys[..|keys|] == keys;
  }

  // ---------------------------------------------------------------------
  // The decision stated over the input positions

  /** Instrument `name` breaches the threshold: the plain sum of its
      positions' P/Ls, over the balance, is below -0.01, and its earliest
      position's market is tradeable. */
  predicate Breached(ps: seq<Position>, balance: real, name: string)
  {
    var ms := Members(ps, name);
    && ms != []
    && Below(Divide(SumPl(ms), balance), -0.01)
    && ms[0].marketStatus == "TRADEABLE"
  }

  /** The instructions for the breached instruments among `names`, in order. */
  function ClosuresOver(names: seq<string>, ps: seq<Position>, balance: real): seq<ClosureInstruction>
  {
    if names == [] then []
    else
      var n := names[|names| - 1];
      ClosuresOver(names[..|names| - 1], ps, balance)
      + (if Breached(ps, balance, n) then Instructions(Members(ps, n)) else [])
  }

  /** What a run closes: instruments in first-seen order, and within each
      instrument its positions in input order. */
  function Decide(ps: seq<Position>, balance: real): seq<ClosureInstruction>
  {
    ClosuresOver(FirstSeen(ps), ps, balance)
  }

  /** The dictionary after the fold and the annotation loop over `ps`. */
  ghost predicate Summarizes(summed: Summed, ps: seq<Position>, balance: real)
  {
    && summed.keys == FirstSeen(ps)
    && (forall n :: n in summed.entries <==> n in summed.keys)
    && forall n :: n in summed.entries ==> Members(ps, n) != [] && summed.entries[n] == Annotated(Accumulated(ps, n), balance)
  }

  /** The fold followed by the annotation loop builds the summary of `ps`. */
  lemma FoldThenAnnotate(ps: seq<Position>, balance: real, folded: Summed, annotated: Summed)
    requires folded.keys == FirstSeen(ps)
    requires forall n :: n in folded.entries ==> folded.entries[n] == Accumulated(ps, n)
    requires forall n :: n in folded.entries <==> n in folded.keys
    requires annotated.keys == folded.keys && annotated.entries.Keys == folded.entries.Keys
    requires forall n :: n in annotated.entries ==> folded.entries[n].positions != [] && annotated.entries[n] == Annotated(folded.entries[n], balance)
    ensures Summarizes(annotated, ps, balance)
  {
  }

  lemma {:induction false} SelectFromOver(names: seq<string>, summed: Summed, ps: seq<Position>, balance: real)
    requires Summarizes(summed, ps, balance)
    requires forall n :: n in names ==> n in summed.keys
    ensures SelectFrom(names, summed.entries) == ClosuresOver(names, ps, balance)
  {
    if names != [] {
      var n := names[|names| - 1];
      SelectFromOver(names[..|names| - 1], summed, ps, balance);
      RunningPlIsSum(Members(ps, n));
    }
  }

  /** The nested loops over the annotated dictionary select exactly the
      positions of the breached instruments. */
  lemma SelectionIsDecision(summed: Summed, ps: seq<Position>, balance: real)
    requires Summarizes(summed, ps, balance)
    ensures forall k :: 0 <= k < |summed.keys| ==> summed.keys[k] in summed.entries
    ensures SelectFrom(summed.keys, summed.entries) == Decide(ps, balance)
  {
    SelectFromOver(summed.keys, summed, ps, balance);
  }

  /** Every instruction closes a position of a breached instrument: nothing
      from an instrument below the threshold or with a closed market. */
  lemma {:induction false} ClosuresSound(names: seq<string>, ps: seq<Position>, balance: real, c: ClosureInstruction)
    requires c in ClosuresOver(names, ps, balance)
    ensures exists p :: p in ps && Breached(ps, balance, p.instrumentName) && c == Instruction(p)
  {
    var n := names[|names| - 1];
    if c in ClosuresOver(names[..|names| - 1], ps, balance) {
      ClosuresSound(names[..|names| - 1], ps, balance, c);
    } else {
      var ms := Members(ps, n);
      var k :| 0 <= k < |ms| && c == Instructions(ms)[k];
      MembersAreFilter(ps, n, ms[k]);
    }
  }

  lemma DecideSound(ps: seq<Position>, balance: real, c: ClosureInstruction)
    requires c in Decide(ps, balance)
    ensures exists p :: p in ps && Breached(ps, balance, p.instrumentName) && c == Instruction(p)
  {
    ClosuresSound(FirstSeen(ps), ps, balance, c);
  }

  lemma {:induction false} ClosuresComplete(names: seq<string>, ps: seq<Position>, balance: real, p: Position)
    requires p in ps && Breached(ps, balance, p.instrumentName) && p.instrumentName in names
    ensures Instruction(p) in ClosuresOver(names, ps, balance)
  {
    var n := names[|names| - 1];
    if n == p.instrumentName {
      MembersAreFilter(ps, n, p);
      var ms := Members(ps, n);
      var k :| 0 <= k < |ms| && ms[k] == p;
      assert Instructions(ms)[k] == Instruction(p);
    } else {
      ClosuresComplete(names[..|names| - 1], ps, balance, p);
    }
  }

  /** Every position of a breached instrument is closed, including the
      positions that are in profit on their own. */
  lemma DecideComplete(ps: seq<Position>, balance: real, p: Position)
    requires p in ps && Breached(ps, balance, p.instrumentName)
    ensures Instruction(p) in Decide(ps, balance)
  {
    MembersAreFilter(ps, p.instrumentName, p);
    FirstSeenKeys(ps);
    ClosuresComplete(FirstSeen(ps), ps, balance, p);
  }

  /** The set of breached instruments. */
  function BreachedNames(ps: seq<Position>, balance: real): set<string>
  {
    set n | n in FirstSeen(ps) && Breached(ps, balance, n)
  }

  lemma {:induction false} ClosuresCount(names: seq<string>, ps: seq<Position>, balance: real)
    requires forall n :: n in names ==> n in FirstSeen(ps)
    ensures |ClosuresOver(names, ps, balance)| == GroupSizes(names, ps, BreachedNames(ps, balance))
  {
    if names != [] {
      ClosuresCount(names[..|names| - 1], ps, balance);
    }
  }

  /** One instruction per position on a breached instrument, and no more:
      the number of instructions is the number of such input positions. */
  lemma DecideCount(ps: seq<Position>, balance: real)
    ensures |Decide(ps, balance)| == |Only(ps, BreachedNames(ps, balance))|
  {
    ClosuresCount(FirstSeen(ps), ps, balance);
    GroupsPartition(ps, BreachedNames(ps, balance));
  }

  /** With a positive balance, an instrument is closed when its summed loss
      is more than 1% of the balance and its market is tradeable; a loss of
      exactly 1% is not closed. */
  lemma BreachedIffLossOverOnePercent(ps: seq<Position>, balance: real, name: string)
    requires balance > 0.0 && Members(ps, name) != []
    ensures Breached(ps, balance, name) <==>
      100.0 * SumPl(Members(ps, name)) < -balance && Members(ps, name)[0].marketStatus == "TRADEABLE"
  {
    ThresholdIsStrictLoss(SumPl(Members(ps, name)), balance);
  }

  /** The block both entry points share (the `forEach` fold, the annotation
      loop and the selection loops): its `positionsToClose` is exactly
      `Decide` over the open positions and the balance. */
  method PositionsToClose(ps: seq<Position>, balance: real) returns (toClose: seq<ClosureInstruction>)
    ensures toClose == Decide(ps, balance)
  {
    var summed := AggregatePositions(ps);
    var annotated := AnnotateGroups(summed, balance);
    FoldThenAnnotate(ps, balance, summed, annotated);
    SelectionIsDecision(annotated, ps, balance);
    toClose := SelectPositionsToClose(annotated);
  }
}
