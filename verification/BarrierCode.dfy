/** The three barrier helpers statement by statement, on pSync cells that other PEs and the network may
    change between any two accesses.  Every access is shown to be a step of the helper's state machine. */
module LinearBarrierCode {
  import opened Runs
  import opened BarrierLinear
  import B = BarrierSpec

  /** The pSync cells and the updates under way; the ghost `s` is the machine's state, of which these are
      the memory. */
  class PSync {
    const n: nat
    var cell: seq<int>
    var flight: multiset<Update>
    ghost var s: State

    ghost predicate IsMemoryOf(t: State)
      reads this
    {
      t.n == n && t.cell == cell && t.flight == flight
    }

    ghost predicate Valid()
      reads this
    {
      Shape(s) && Reached(s) && IsMemoryOf(s)
    }

    constructor (n: nat)
      requires n > 0
      ensures Valid() && this.n == n && Initial(s)
    {
      this.n, cell, flight := n, seq(n, _ => 0), multiset{};
      s := State(n, seq(n, _ => 0), seq(n, _ => Out), 0, multiset{}, seq(n, _ => 0), seq(n, _ => 0), {},
        seq(n, _ => 0));
      new;
      ReachableInit(Initial, BarrierLinear.Next, s);
    }

    /** Any number of steps of other PEs, and deliveries, may happen here; p itself has not moved. */
    method Others(ghost p: nat)
      requires Valid() && p < n
      modifies this
      ensures Valid() && s.pc[p] == old(s.pc[p]) && s.entered[p] == old(s.entered[p]) && s.left[p] == old(s.left[p])
      ensures p == 0 ==> s.poke == old(s.poke)
    {
    }

    /** The access just made was the step e. */
    ghost method Step(e: Event)
      requires Shape(s) && Reached(s) && Enabled(s, e) && IsMemoryOf(Apply(s, e))
      modifies `s
      ensures Valid() && s == Apply(old(s), e)
    {
      assert BarrierLinear.Next(s, Apply(s, e));
      ReachableStep(Initial, BarrierLinear.Next, s, Apply(s, e));
      s := Apply(s, e);
    }

    /** barrier_sync_helper_linear on PE p of the active set; PE 0 is its start.  A wait gives up after
        `patience` looks; then what p waits for is not in its cell. */
    method Helper(p: nat, patience: nat) returns (done: bool)
      requires Valid() && p < n && s.pc[p] == Out
      modifies this
      ensures Valid()
      ensures done ==> s.pc[p] == Out && s.left[p] == old(s.left[p]) + 1
                       && forall q :: 0 <= q < n ==> s.entered[q] >= s.left[p]
      ensures !done ==> (p == 0 && s.pc[p] == RootWait && cell[p] != n - 1)
                        || (p != 0 && s.pc[p] == AckWait && cell[p] == 0)
    {
      Step(Call(p));
      Others(p);
      if p == 0 {
        done := RootSide(patience);
      } else {
        done := OtherSide(p, patience);
      }
      LinearIsBarrier(s);
      B.AllowedGood(Calls(s));
    }

    method RootSide(patience: nat) returns (done: bool)
      requires Valid() && n > 0 && s.pc[0] == Begin
      modifies this
      ensures Valid()
      ensures if done then s.pc[0] == Out && s.left[0] == old(s.left[0]) + 1
              else s.pc[0] == RootWait && cell[0] != n - 1
    {
      var npokes := n - 1;
      var poke := cell[0] + 1;
      Step(Run(0));
      Others(0);

      // n - 1 increments are due, one from everybody else
      done := WaitPokes(npokes, patience);
      if !done { return; }
      Others(0);
      cell := cell[0 := 0];
      Step(Run(0));
      Others(0);

      // all others have poked: the root lets them out, in order
      for i := 1 to n
        invariant Valid() && s.pc[0] == RootAck(i) && s.poke == poke && s.left[0] == old(s.left[0])
      {
        SendAck(i, poke);
        Others(0);
      }
      Step(Run(0));
      done := true;
    }

    method SendAck(i: nat, poke: int)
      requires Valid() && 1 <= i < n && s.pc[0] == RootAck(i) && s.poke == poke
      modifies this
      ensures Valid() && s.pc[0] == RootAck(i + 1) && s.poke == poke && s.left[0] == old(s.left[0])
      ensures flight == old(flight) + multiset{Ack(i, poke)}
    {
      flight := flight + multiset{Ack(i, poke)};
      Step(Run(0));
    }

    method OtherSide(p: nat, patience: nat) returns (done: bool)
      requires Valid() && 0 < p < n && s.pc[p] == Begin
      modifies this
      ensures Valid()
      ensures if done then s.pc[p] == Out && s.left[p] == old(s.left[p]) + 1 else s.pc[p] == AckWait && cell[p] == 0
    {
      // the root counts who has come
      flight := flight + multiset{Poke(p)};
      Step(Run(p));
      Others(p);

      // and its answer is any non-zero value
      done := WaitAck(p, patience);
      if !done { return; }
      Others(p);
      cell := cell[p := 0];
      Step(Run(p));
    }

    method WaitPokes(npokes: int, patience: nat) returns (seen: bool)
      requires Valid() && n > 0 && s.pc[0] == RootWait && npokes == n - 1
      modifies this
      ensures Valid() && s.left[0] == old(s.left[0]) && s.poke == old(s.poke)
      ensures if seen then s.pc[0] == RootReset else s.pc[0] == RootWait && cell[0] != npokes
    {
      var looks := 0;
      while cell[0] != npokes
        invariant Valid() && s.pc[0] == RootWait && s.left[0] == old(s.left[0]) && s.poke == old(s.poke)
        decreases patience - looks
      {
        if looks >= patience { return false; }
        looks := looks + 1;
        Others(0);
      }
      Step(Run(0));
      seen := true;
    }

    method WaitAck(p: nat, patience: nat) returns (seen: bool)
      requires Valid() && p < n && s.pc[p] == AckWait
      modifies this
      ensures Valid() && s.left[p] == old(s.left[p])
      ensures if seen then s.pc[p] == AckReset else s.pc[p] == AckWait && cell[p] == 0
    {
      var looks := 0;
      while cell[p] == 0
        invariant Valid() && s.pc[p] == AckWait && s.left[p] == old(s.left[p])
        decreases patience - looks
      {
        if looks >= patience { return false; }
        looks := looks + 1;
        Others(p);
      }
      Step(Run(p));
      seen := true;
    }
  }
}

module TreeBarrierCode {
  import opened Runs
  import opened Trees
  import opened BarrierTree
  import B = BarrierSpec

  const TREE_DEGREE := 2

  class PSync {
    const tree: Tree
    var cell: seq<int>
    var flight: multiset<nat>
    ghost var s: State

    ghost predicate IsMemoryOf(t: State)
      reads this
    {
      t.tree == tree && t.cell == cell && t.flight == flight
    }

    ghost predicate Valid()
      reads this
    {
      Shape(s) && Reached(s) && IsMemoryOf(s)
    }

    constructor (n: nat)
      requires n > 0
      ensures Valid() && tree == Kary(n, TREE_DEGREE) && Initial(s)
    {
      tree, cell, flight := Kary(n, TREE_DEGREE), seq(n, _ => 0), multiset{};
      s := State(Kary(n, TREE_DEGREE), seq(n, _ => 0), seq(n, _ => Out), multiset{}, seq(n, _ => 0), seq(n, _ => 0),
                 seq(n, _ => {}), seq(n, _ => false));
      new;
      KaryIsTree(n, TREE_DEGREE);
      ReachableInit(Initial, BarrierTree.Next, s);
    }

    /** Any number of steps of other PEs, and deliveries, may happen here; p itself has not moved. */
    method Others(ghost p: nat)
      requires Valid() && p < tree.n
      modifies this
      ensures Valid() && s.pc[p] == old(s.pc[p]) && s.left[p] == old(s.left[p])
    {
    }

    /** The access just made was the step e. */
    ghost method Step(e: Event)
      requires Shape(s) && Reached(s) && Enabled(s, e) && IsMemoryOf(Apply(s, e))
      modifies `s
      ensures Valid() && s == Apply(old(s), e)
    {
      assert BarrierTree.Next(s, Apply(s, e));
      ReachableStep(Initial, BarrierTree.Next, s, Apply(s, e));
      s := Apply(s, e);
    }

    /** Where a call of p that gave up is: the value it waits for is not in its cell. */
    ghost predicate Waiting(p: nat)
      requires Valid() && p < tree.n
      reads this
    {
      || (s.pc[p] == WaitKids && cell[p] != |tree.kids[p]|)
      || (s.pc[p] == WaitParent && cell[p] != |tree.kids[p]| + 1)
    }

    /** barrier_sync_helper_tree on the PE with index p in the active set. */
    method Helper(p: nat, patience: nat) returns (done: bool)
      requires Valid() && p < tree.n && s.pc[p] == Out && tree == Kary(tree.n, TREE_DEGREE)
      modifies this
      ensures Valid()
      ensures done ==> s.pc[p] == Out && s.left[p] == old(s.left[p]) + 1
                       && forall q :: 0 <= q < tree.n ==> s.entered[q] >= s.left[p]
      ensures done || Waiting(p)
    {
      var parentIdx := if p != 0 then (p - 1) / TREE_DEGREE else -1;
      var npokes, childrenBegin, childrenEnd := ChildrenInfo(tree.n, TREE_DEGREE, p);
      Step(Call(p));
      Others(p);

      done := Climb(p, npokes, parentIdx, patience);
      if !done { return; }

      ClearAndRelease(p, childrenBegin, childrenEnd);
      AllEntered(p);
      done := true;
    }

    lemma AllEntered(p: nat)
      requires Valid() && p < tree.n
      ensures forall q :: 0 <= q < tree.n ==> s.entered[q] >= s.left[p]
    {
      TreeIsBarrier(s);
      B.AllowedGood(Calls(s));
    }

    /** The pokes going up. */
    method Climb(p: nat, npokes: nat, parentIdx: int, patience: nat) returns (done: bool)
      requires Valid() && p < tree.n && s.pc[p] == WaitKids
      requires parentIdx == tree.parent[p] && npokes == |tree.kids[p]|
      modifies this
      ensures Valid() && s.left[p] == old(s.left[p])
      ensures if done then s.pc[p] == Reset else Waiting(p)
    {
      // a leaf has nobody to wait for
      if npokes != 0 {
        done := WaitCell(p, npokes, patience);
        if !done { return; }
      } else {
        Step(Run(p));
      }
      Others(p);
      if parentIdx != -1 {
        // the parent counts this node in
        PokeUp(p, parentIdx);
        Others(p);

        // the release is one more than the increments of the children
        done := WaitCell(p, npokes + 1, patience);
        if !done { return; }
        Others(p);
      }
      done := true;
    }

    method PokeUp(p: nat, parentIdx: int)
      requires Valid() && 0 < p < tree.n && s.pc[p] == PokeParent && parentIdx == tree.parent[p]
      modifies this
      ensures Valid() && s.pc[p] == WaitParent && s.left[p] == old(s.left[p])
    {
      assert 0 <= tree.parent[p] < p;
      cell := cell[parentIdx := cell[parentIdx] + 1];
      Step(Run(p));
    }

    /** The cell is made ready for the next call, then the children are let out. */
    method ClearAndRelease(p: nat, childrenBegin: int, childrenEnd: int)
      requires Valid() && p < tree.n && s.pc[p] == Reset
      requires if childrenBegin == -1 then childrenEnd == -1 && tree.kids[p] == []
               else 0 < childrenBegin <= childrenEnd && tree.kids[p] == Range(childrenBegin, childrenEnd)
      modifies this
      ensures Valid() && s.pc[p] == Out && s.left[p] == old(s.left[p]) + 1
    {
      cell := cell[p := 0];
      Step(Run(p));
      Others(p);
      var child := childrenBegin;
      while child != childrenEnd
        invariant childrenBegin <= child <= childrenEnd && Valid()
        invariant s.pc[p] == Release(child - childrenBegin) && s.left[p] == old(s.left[p])
        decreases childrenEnd - child
      {
        ReleaseChild(p, child, childrenBegin, childrenEnd);
        child := child + 1;
        Others(p);
      }
      Step(Run(p));
    }

    method ReleaseChild(p: nat, child: int, ghost childrenBegin: int, ghost childrenEnd: int)
      requires Valid() && p < tree.n && 0 < childrenBegin <= child < childrenEnd
      requires tree.kids[p] == Range(childrenBegin, childrenEnd) && s.pc[p] == Release(child - childrenBegin)
      modifies this
      ensures Valid() && s.pc[p] == Release(child + 1 - childrenBegin) && s.left[p] == old(s.left[p])
      ensures flight == old(flight) + multiset{child as nat}
    {
      flight := flight + multiset{child as nat};
      Step(Run(p));
    }

    /** A wait for an exact value: it ends only at a moment when the cell holds that value. */
    method WaitCell(p: nat, value: int, patience: nat) returns (seen: bool)
      requires Valid() && p < tree.n
      requires (s.pc[p] == WaitKids && value == |tree.kids[p]|)
               || (s.pc[p] == WaitParent && value == |tree.kids[p]| + 1)
      modifies this
      ensures Valid() && s.left[p] == old(s.left[p])
      ensures !seen ==> s.pc[p] == old(s.pc[p]) && cell[p] != value
      ensures seen ==> s.pc[p] == if old(s.pc[p]) == WaitKids && p != 0 then PokeParent else Reset
    {
      var looks := 0;
      while cell[p] != value
        invariant Valid() && s.pc[p] == old(s.pc[p]) && s.left[p] == old(s.left[p])
        decreases patience - looks
      {
        if looks >= patience { return false; }
        looks := looks + 1;
        Others(p);
      }
      Step(Run(p));
      seen := true;
    }
  }
}

module DissemBarrierCode {
  import opened Runs
  import opened Bits
  import opened BarrierDissem
  import B = BarrierSpec

  class PSync {
    const n: nat
    const rounds: nat          // the cells of each PE
    var cell: seq<seq<int>>
    var flight: multiset<Increment>
    ghost var s: State

    ghost predicate IsMemoryOf(t: State)
      reads this
    {
      t.n == n && t.rounds == rounds && t.cell == cell && t.flight == flight
    }

    ghost predicate Valid()
      reads this
    {
      Shape(s) && Reached(s) && IsMemoryOf(s)
    }

    constructor (n: nat)
      requires n > 0
      ensures Valid() && this.n == n && IsRounds(n, rounds) && Initial(s)
    {
      var rounds := Rounds(n, 0);
      this.n, this.rounds, cell, flight := n, rounds, seq(n, _ => seq(rounds, _ => 0)), multiset{};
      s := State(n, rounds, seq(n, _ => seq(rounds, _ => 0)), seq(n, _ => Out), multiset{}, seq(n, _ => 0),
        seq(n, _ => 0));
      new;
      ReachableInit(Initial, BarrierDissem.Next, s);
    }

    /** Any number of steps of other PEs, and deliveries, may happen here; p itself has not moved. */
    method Others(ghost p: nat)
      requires Valid() && p < n
      modifies this
      ensures Valid() && s.pc[p] == old(s.pc[p]) && s.left[p] == old(s.left[p])
    {
    }

    /** The access just made was the step e. */
    ghost method Step(e: Event)
      requires Shape(s) && Reached(s) && Enabled(s, e) && IsMemoryOf(Apply(s, e))
      modifies `s
      ensures Valid() && s == Apply(old(s), e)
    {
      assert BarrierDissem.Next(s, Apply(s, e));
      ReachableStep(Initial, BarrierDissem.Next, s, Apply(s, e));
      s := Apply(s, e);
    }

    /** barrier_sync_helper_dissemination on the PE with index p in the active set. */
    method Helper(p: nat, patience: nat) returns (done: bool)
      requires Valid() && p < n && s.pc[p] == Out
      modifies this
      ensures Valid()
      ensures done ==> s.pc[p] == Out && s.left[p] == old(s.left[p]) + 1
                       && forall q :: 0 <= q < n ==> s.entered[q] >= s.left[p]
      ensures !done ==> s.pc[p].Wait? && s.pc[p].r < rounds && cell[p][s.pc[p].r] == 0
    {
      Step(Call(p));
      Others(p);
      var round, distance := 0, 1;
      while distance < n
        invariant Valid() && s.pc[p] == BarrierDissem.Poke(round) && s.left[p] == old(s.left[p])
        invariant distance == Exp2(round) >= 1
        decreases n - distance
      {
        done := Round(p, round, distance, patience);
        if !done { return; }
        Others(p);
        round, distance := round + 1, distance * 2;
      }
      Step(Run(p));
      AllEntered(p);
      done := true;
    }

    lemma AllEntered(p: nat)
      requires Valid() && p < n
      ensures forall q :: 0 <= q < n ==> s.entered[q] >= s.left[p]
    {
      DissemIsBarrier(s);
      B.AllowedGood(Calls(s));
    }

    /** One round. */
    method Round(p: nat, round: nat, distance: nat, patience: nat) returns (done: bool)
      requires Valid() && p < n && s.pc[p] == BarrierDissem.Poke(round) && distance == Exp2(round) < n
      modifies this
      ensures Valid() && s.left[p] == old(s.left[p])
      ensures if done then s.pc[p] == BarrierDissem.Poke(round + 1) else s.pc[p] == Wait(round) && cell[p][round] == 0
    {
      var target := (p + distance) % n;
      assert round < rounds;

      // this round's target is `distance` PEs ahead
      PokeTarget(p, round, target);
      Others(p);

      // and this round's poke comes from as far behind
      done := WaitCell(p, round, patience);
      if !done { return; }
      Others(p);

      // one poke is consumed; the next call's may be in the cell already
      TakePoke(p, round);
    }

    method PokeTarget(p: nat, round: nat, target: nat)
      requires Valid() && p < n && s.pc[p] == BarrierDissem.Poke(round) && Exp2(round) < n
               && target == (p + Exp2(round)) % n
      modifies this
      ensures Valid() && s.pc[p] == Wait(round) && s.left[p] == old(s.left[p])
    {
      AheadIsModulo(n, p, Exp2(round));
      flight := flight + multiset{Increment(target, round)};
      Step(Run(p));
    }

    method WaitCell(p: nat, round: nat, patience: nat) returns (seen: bool)
      requires Valid() && p < n && round < rounds && s.pc[p] == Wait(round)
      modifies this
      ensures Valid() && s.left[p] == old(s.left[p])
      ensures if seen then s.pc[p] == BarrierDissem.Reset(round) else s.pc[p] == Wait(round) && cell[p][round] == 0
    {
      var looks := 0;
      while cell[p][round] == 0
        invariant Valid() && s.pc[p] == Wait(round) && s.left[p] == old(s.left[p])
        decreases patience - looks
      {
        if looks >= patience { return false; }
        looks := looks + 1;
        Others(p);
      }
      Step(Run(p));
      seen := true;
    }

    /** a fetching add of -1 */
    method TakePoke(p: nat, round: nat)
      requires Valid() && p < n && round < rounds && s.pc[p] == BarrierDissem.Reset(round)
      modifies this
      ensures Valid() && s.pc[p] == BarrierDissem.Poke(round + 1) && s.left[p] == old(s.left[p])
      ensures cell == old(cell[p := cell[p][round := cell[p][round] - 1]])
    {
      cell := cell[p := cell[p][round := cell[p][round] - 1]];
      Step(Run(p));
    }
  }
}
