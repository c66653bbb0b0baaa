/** The three broadcast helpers statement by statement, with memory indexed as the active set is, and any
    number of steps of the other PEs and of the network between every two accesses. */
module BroadcastCode {
  import opened Runs
  import opened Trees
  import opened Broadcast

  const TREE_DEGREE := 2

  /** `t` lists by tree node what `s` holds by active-set index: the root and index 0 trade places. */
  ghost predicate ByNode<T(!new)>(root: nat, s: seq<T>, t: seq<T>) {
    root < |s| == |t| && forall v {:trigger t[v]} :: 0 <= v < |t| ==> t[v] == s[SwapRoot(root, v)]
  }

  lemma ByNodeUpdate<T(!new)>(root: nat, s: seq<T>, t: seq<T>, i: nat, x: T)
    requires ByNode(root, s, t) && i < |s|
    ensures 0 <= SwapRoot(root, i) < |s| && ByNode(root, s[i := x], t[SwapRoot(root, i) := x])
    ensures t[SwapRoot(root, i)] == s[i]
  {
  }

  lemma ChildNotRoot(t: Tree, p: nat, k: nat)
    requires IsTree(t) && p < t.n && k < |t.kids[p]|
    ensures 1 <= t.kids[p][k] < t.n
  {
    assert t.kids[p][k] in t.kids[p];
  }

  /** The data goes to the child: that is the machine's step. */
  lemma PutStep(s: State, v: nat, k: nat)
    requires Shape(s) && v < s.tree.n && s.pc[v] == Put(k) && k < |s.tree.kids[v]|
    ensures Enabled(s, Run(v))
    ensures Apply(s, Run(v)) ==
            s.(flight := s.flight
                         + multiset{Data(v, s.tree.kids[v][k], s.fences[v], if v == 0 then s.source else s.target[v])},
               pc := s.pc[v := if s.batched then Put(k + 1) else Broadcast.Fence(k)])
  {
  }

  lemma SignalStep(s: State, v: nat, k: nat)
    requires Shape(s) && v < s.tree.n && s.pc[v] == Signal(k) && k < |s.tree.kids[v]|
    ensures Enabled(s, Run(v))
    ensures Apply(s, Run(v)) ==
            s.(flight := s.flight + multiset{Inc(v, s.tree.kids[v][k], s.fences[v])},
               pc := s.pc[v := if s.batched then Signal(k + 1) else Put(k + 1)])
  {
  }

  /** One broadcast call: targets and pSync cells by active-set index, and messages under way, addressed by
      the node that plays the index.  The ghost `s` is the machine's state, of which this is the memory. */
  class Memory {
    const tree: Tree
    const batched: bool
    const source: Bytes
    const root: nat
    var target: seq<Bytes>
    var cell: seq<int>
    var flight: multiset<Message>
    var fences: seq<nat>            // of each node, as the network tells epochs apart
    ghost var s: State

    ghost predicate IsMemoryOf(t: State)
      reads this
    {
      && t.tree == tree && t.batched == batched && t.source == source
      && |target| == |cell| == tree.n && root < tree.n
      && ByNode(root, target, t.target) && ByNode(root, cell, t.cell) && flight == t.flight && fences == t.fences
    }

    ghost predicate Valid()
      reads this
    {
      Shape(s) && Reached(s) && IsMemoryOf(s)
    }

    constructor (tree: Tree, batched: bool, source: Bytes, root: nat, target: seq<Bytes>)
      requires IsTree(tree) && root < tree.n && |target| == tree.n
      ensures Valid() && this.tree == tree && this.batched == batched && this.source == source && this.root == root
      ensures this.target == target && Initial(s)
    {
      this.tree, this.batched, this.source, this.root, this.target := tree, batched, source, root, target;
      var n := tree.n;
      cell, flight, fences := seq(n, _ => 0), multiset{}, seq(n, _ => 0);
      s := State(tree, batched, source, seq(n, v requires 0 <= v < n => target[SwapRoot(root, v)]), seq(n, _ => 0),
                 seq(n, v => if v == 0 then Put(0) else WaitData), seq(n, _ => 0), multiset{},
                 seq(n, _ => 0), seq(n, _ => false), seq(n, _ => {}));
      new;
      ReachableInit(Initial, Broadcast.Next, s);
    }

    /** Any number of steps of other PEs, and deliveries, may happen here; node v itself has not moved. */
    method Others(ghost v: nat)
      requires Valid() && v < tree.n
      modifies this
      ensures Valid() && s.pc[v] == old(s.pc[v]) && fences[v] == old(fences[v])
    {
    }

    /** The access just made was the step e. */
    ghost method Step(e: Event)
      requires Shape(s) && Reached(s) && Enabled(s, e) && IsMemoryOf(Apply(s, e))
      modifies `s
      ensures Valid() && s == Apply(old(s), e)
    {
      assert Broadcast.Next(s, Apply(s, e));
      ReachableStep(Initial, Broadcast.Next, s, Apply(s, e));
      s := Apply(s, e);
    }

    /** The node that active-set index i plays. */
    function NodeOf(i: nat): int {
      if i == root then 0 else if i == 0 then root else i
    }

    /** Where the PE at index i is. */
    ghost function At(i: nat): Pc
      requires Valid() && i < tree.n
      reads this
    {
      s.pc[NodeOf(i)]
    }

    // ---------------------------------------------------------- accesses

    /** A child looks at its cell until it is not zero. */
    method AwaitData(i: nat, patience: nat) returns (seen: bool)
      requires Valid() && i < tree.n && At(i) == WaitData
      modifies this
      ensures Valid() && if seen then At(i) == SendAck else At(i) == WaitData && cell[i] == 0
    {
      var looks := 0;
      while cell[i] == 0
        invariant Valid() && At(i) == WaitData
        decreases patience - looks
      {
        if looks >= patience { return false; }
        looks := looks + 1;
        Others(NodeOf(i));
      }
      ByNodeUpdate(root, cell, s.cell, i, cell[i]);
      Step(Run(NodeOf(i)));
      seen := true;
    }

    /** An increment for the parent, whose index is found by the same swap. */
    method Ack(i: nat, parentNode: nat)
      requires Valid() && i < tree.n && NodeOf(i) != 0 && At(i) == SendAck && parentNode == tree.parent[NodeOf(i)]
      modifies this
      ensures Valid() && At(i) == Put(0)
    {
      var parent := if parentNode == root then 0 else if parentNode == 0 then root else parentNode;
      flight := flight + multiset{Inc(NodeOf(i), NodeOf(parent), fences[NodeOf(i)])};
      Step(Run(NodeOf(i)));
    }

    /** put the data to the index that plays the child */
    method PutTo(i: nat, child: nat, ghost k: nat)
      requires Valid() && i < tree.n && At(i) == Put(k)
      requires k < |tree.kids[NodeOf(i)]| && child == tree.kids[NodeOf(i)][k]
      modifies this
      ensures Valid() && At(i) == if batched then Put(k + 1) else Broadcast.Fence(k)
    {
      var dst := if child == root then 0 else child;
      var data := if NodeOf(i) == 0 then source else target[i];
      ByNodeUpdate(root, target, s.target, i, target[i]);
      ChildNotRoot(tree, NodeOf(i), k);
      PutStep(s, NodeOf(i), k);
      flight := flight + multiset{Data(NodeOf(i), NodeOf(dst), fences[NodeOf(i)], data)};
      Step(Run(NodeOf(i)));
      Others(NodeOf(i));
    }

    method Fence(i: nat, ghost k: nat)
      requires Valid() && i < tree.n && At(i) == Broadcast.Fence(k)
      modifies this
      ensures Valid() && At(i) == Signal(if batched then 0 else k)
    {
      fences := fences[NodeOf(i) := fences[NodeOf(i)] + 1];
      Step(Run(NodeOf(i)));
    }

    /** increment the pSync of the index that plays the child */
    method SignalTo(i: nat, child: nat, ghost k: nat)
      requires Valid() && i < tree.n && At(i) == Signal(k)
      requires k < |tree.kids[NodeOf(i)]| && child == tree.kids[NodeOf(i)][k]
      modifies this
      ensures Valid() && At(i) == if batched then Signal(k + 1) else Put(k + 1)
    {
      var dst := if child == root then 0 else child;
      ChildNotRoot(tree, NodeOf(i), k);
      SignalStep(s, NodeOf(i), k);
      flight := flight + multiset{Inc(NodeOf(i), NodeOf(dst), fences[NodeOf(i)])};
      Step(Run(NodeOf(i)));
      Others(NodeOf(i));
    }

    /** a loop over the children ends */
    ghost method EndLoop(i: nat)
      requires Valid() && i < tree.n
      requires var n := |tree.kids[NodeOf(i)]|; At(i) == Put(n) || At(i) == Signal(n)
      modifies `s
      ensures Valid()
      ensures At(i) == if |tree.kids[NodeOf(i)]| == 0 && old(At(i)).Put? then Clear
                               else if batched && old(At(i)).Put? then Broadcast.Fence(0) else WaitAcks
    {
      Step(Run(NodeOf(i)));
    }

    /** Index i waits for its children, and its cell does not hold one increment from each, besides the one it
        got from its parent. */
    ghost predicate AcksMissing(i: nat)
      requires Valid() && i < tree.n
      reads this
    {
      At(i) == WaitAcks && cell[i] != |tree.kids[NodeOf(i)]| + (if i == root then 0 else 1)
    }

    /** A node with children waits for one increment from each, besides the one it got from its parent. */
    method AwaitAcks(i: nat, numChildren: nat, patience: nat) returns (seen: bool)
      requires Valid() && i < tree.n && At(i) == WaitAcks && numChildren == |tree.kids[NodeOf(i)]|
      modifies this
      ensures Valid() && if seen then At(i) == Clear else AcksMissing(i)
    {
      var looks := 0;
      while cell[i] != numChildren + (if NodeOf(i) == 0 then 0 else 1)
        invariant Valid() && At(i) == WaitAcks
        decreases patience - looks
      {
        if looks >= patience { return false; }
        looks := looks + 1;
        Others(NodeOf(i));
      }
      ByNodeUpdate(root, cell, s.cell, i, cell[i]);
      Step(Run(NodeOf(i)));
      seen := true;
    }

    method ClearCell(i: nat)
      requires Valid() && i < tree.n && At(i) == Clear
      modifies this
      ensures Valid() && At(i) == Done && cell[i] == 0
    {
      ByNodeUpdate(root, cell, s.cell, i, 0);
      cell := cell[i := 0];
      Step(Run(NodeOf(i)));
    }

    /** Index i has returned: its target is the root's source, written once, or at the root itself untouched. */
    ghost predicate Received(i: nat)
      requires Valid() && i < tree.n
      reads this
    {
      && At(i) == Done
      && if i == root then s.writes[0] == 0 else target[i] == source && s.writes[NodeOf(i)] == 1
    }

    lemma DoneReceived(i: nat)
      requires Valid() && i < tree.n && At(i) == Done
      ensures Received(i)
    {
      var v := NodeOf(i);
      ByNodeUpdate(root, target, s.target, i, target[i]);
      ReachedInv(s);
      assert NodeOk(s, v);
      if v != 0 { NothingStale(s, v, Inc(0, 0, 0)); }
    }

    // ---------------------------------------------------------- the helpers

    /** Where a call of index i that gave up is: what it waits for is not in its cell. */
    ghost predicate Waiting(i: nat)
      requires Valid() && i < tree.n
      reads this
    {
      (At(i) == WaitData && cell[i] == 0) || AcksMissing(i)
    }

    /** The first half, common to all three: wait for the data and ack it. */
    method Receive(i: nat, parentNode: int, patience: nat) returns (done: bool)
      requires Valid() && i < tree.n && At(i) == (if i == root then Put(0) else WaitData)
      requires parentNode == tree.parent[NodeOf(i)]
      modifies this
      ensures Valid() && if done then At(i) == Put(0) else At(i) == WaitData && cell[i] == 0
    {
      if NodeOf(i) != 0 {
        done := AwaitData(i, patience);
        if !done { return; }
        Others(NodeOf(i));
        Ack(i, parentNode);
        Others(NodeOf(i));
      }
      done := true;
    }

    /** The end, common to all three: wait for the acks of the children, if any, and clear pSync. */
    method Finish(i: nat, numChildren: nat, patience: nat) returns (done: bool)
      requires Valid() && i < tree.n && numChildren == |tree.kids[NodeOf(i)]|
      requires At(i) == if numChildren != 0 then WaitAcks else Put(0)
      modifies this
      ensures Valid() && if done then Received(i) else AcksMissing(i)
    {
      if numChildren != 0 {
        done := AwaitAcks(i, numChildren, patience);
        if !done { return; }
        Others(NodeOf(i));
      } else {
        EndLoop(i);
      }
      ClearCell(i);
      DoneReceived(i);
      done := true;
    }

    /** broadcast_helper_tree at active-set index i. */
    method HelperTree(i: nat, patience: nat) returns (done: bool)
      requires Valid() && i < tree.n && tree == Kary(tree.n, TREE_DEGREE) && batched
      requires At(i) == if i == root then Put(0) else WaitData
      modifies this
      ensures Valid() && if done then Received(i) else Waiting(i)
    {
      var me := NodeOf(i);
      var numChildren, childrenBegin, childrenEnd := ChildrenInfo(tree.n, TREE_DEGREE, me);
      done := Receive(i, if me != 0 then (me - 1) / TREE_DEGREE else -1, patience);
      if !done { return; }
      if numChildren != 0 {
        SendRange(i, childrenBegin, childrenEnd);
      }
      done := Finish(i, numChildren, patience);
    }

    method SendRange(i: nat, childrenBegin: nat, childrenEnd: nat)
      requires Valid() && i < tree.n && batched && childrenBegin < childrenEnd
      requires tree.kids[NodeOf(i)] == Range(childrenBegin, childrenEnd) && At(i) == Put(0)
      modifies this
      ensures Valid() && At(i) == WaitAcks
    {
      PutRange(i, childrenBegin, childrenEnd);
      EndLoop(i);
      Fence(i, 0);
      Others(NodeOf(i));
      SignalRange(i, childrenBegin, childrenEnd);
      EndLoop(i);
    }

    method PutInRange(i: nat, child: nat, ghost k: nat, ghost kids: seq<nat>)
      requires Valid() && i < tree.n && batched && At(i) == Put(k)
      requires tree.kids[NodeOf(i)] == kids && k < |kids| && kids[k] == child
      modifies this
      ensures Valid() && At(i) == Put(k + 1)
    {
      PutTo(i, child, k);
    }

    method SignalInRange(i: nat, child: nat, ghost k: nat, ghost kids: seq<nat>)
      requires Valid() && i < tree.n && batched && At(i) == Signal(k)
      requires tree.kids[NodeOf(i)] == kids && k < |kids| && kids[k] == child
      modifies this
      ensures Valid() && At(i) == Signal(k + 1)
    {
      SignalTo(i, child, k);
    }

    method PutRange(i: nat, childrenBegin: nat, childrenEnd: nat)
      requires Valid() && i < tree.n && batched && childrenBegin < childrenEnd
      requires tree.kids[NodeOf(i)] == Range(childrenBegin, childrenEnd) && At(i) == Put(0)
      modifies this
      ensures Valid() && At(i) == Put(childrenEnd - childrenBegin)
    {
      var child := childrenBegin;
      ghost var k: nat, kids := 0, tree.kids[NodeOf(i)];
      while child != childrenEnd
        invariant child == childrenBegin + k <= childrenEnd && Valid() && At(i) == Put(k)
        decreases childrenEnd - child
      {
        PutInRange(i, child, k, kids);
        child, k := child + 1, k + 1;
      }
    }

    method SignalRange(i: nat, childrenBegin: nat, childrenEnd: nat)
      requires Valid() && i < tree.n && batched && childrenBegin < childrenEnd
      requires tree.kids[NodeOf(i)] == Range(childrenBegin, childrenEnd) && At(i) == Signal(0)
      modifies this
      ensures Valid() && At(i) == Signal(childrenEnd - childrenBegin)
    {
      var child := childrenBegin;
      ghost var k: nat, kids := 0, tree.kids[NodeOf(i)];
      while child != childrenEnd
        invariant child == childrenBegin + k <= childrenEnd && Valid() && At(i) == Signal(k)
        decreases childrenEnd - child
      {
        SignalInRange(i, child, k, kids);
        child, k := child + 1, k + 1;
      }
    }

    /** broadcast_helper_binomial: put, fence and signal child by child. */
    method HelperBinomial(i: nat, children: array<nat>, patience: nat) returns (done: bool)
      requires Valid() && i < tree.n <= 0x8000_0000 && tree == Binomial(tree.n) && !batched && children.Length == 32
      requires At(i) == if i == root then Put(0) else WaitData
      modifies this, children
      ensures Valid() && if done then Received(i) else Waiting(i)
    {
      var numChildren := ChildrenInfoBinomial(tree.n, NodeOf(i), children);
      done := Receive(i, BinomialParent(NodeOf(i)), patience);
      if !done { return; }
      if numChildren != 0 {
        SendOneByOne(i, children, numChildren);
      }
      done := Finish(i, numChildren, patience);
    }

    method SendOneByOne(i: nat, children: array<nat>, numChildren: nat)
      requires Valid() && i < tree.n && !batched && 0 < numChildren <= children.Length
      requires children[..numChildren] == tree.kids[NodeOf(i)] && At(i) == Put(0)
      modifies this
      ensures Valid() && At(i) == WaitAcks
    {
      ghost var kids := tree.kids[NodeOf(i)];
      for k := 0 to numChildren
        invariant Valid() && At(i) == Put(k)
      {
        assert children[k] == children[..numChildren][k] == kids[k];
        SendOne(i, children[k], k);
      }
      EndLoop(i);
    }

    method SendOne(i: nat, child: nat, ghost k: nat)
      requires Valid() && i < tree.n && !batched && At(i) == Put(k)
      requires k < |tree.kids[NodeOf(i)]| && child == tree.kids[NodeOf(i)][k]
      modifies this
      ensures Valid() && At(i) == Put(k + 1)
    {
      PutTo(i, child, k);
      Fence(i, k);
      Others(NodeOf(i));
      SignalTo(i, child, k);
    }

    /** broadcast_helper_binomial2: all puts, one fence, all signals. */
    method HelperBinomial2(i: nat, children: array<nat>, patience: nat) returns (done: bool)
      requires Valid() && i < tree.n <= 0x8000_0000 && tree == Binomial(tree.n) && batched && children.Length == 32
      requires At(i) == if i == root then Put(0) else WaitData
      modifies this, children
      ensures Valid() && if done then Received(i) else Waiting(i)
    {
      var numChildren := ChildrenInfoBinomial(tree.n, NodeOf(i), children);
      done := Receive(i, BinomialParent(NodeOf(i)), patience);
      if !done { return; }
      if numChildren != 0 {
        SendInTwoRounds(i, children, numChildren);
      }
      done := Finish(i, numChildren, patience);
    }

    method SendInTwoRounds(i: nat, children: array<nat>, numChildren: nat)
      requires Valid() && i < tree.n && batched && 0 < numChildren <= children.Length
      requires children[..numChildren] == tree.kids[NodeOf(i)] && At(i) == Put(0)
      modifies this
      ensures Valid() && At(i) == WaitAcks
    {
      PutAll(i, children, numChildren);
      Fence(i, 0);
      Others(NodeOf(i));
      SignalAll(i, children, numChildren);
    }

    method PutAll(i: nat, children: array<nat>, numChildren: nat)
      requires Valid() && i < tree.n && batched && 0 < numChildren <= children.Length
      requires children[..numChildren] == tree.kids[NodeOf(i)] && At(i) == Put(0)
      modifies this
      ensures Valid() && At(i) == Broadcast.Fence(0)
    {
      ghost var kids := tree.kids[NodeOf(i)];
      for k := 0 to numChildren
        invariant Valid() && At(i) == Put(k)
      {
        assert children[k] == children[..numChildren][k] == kids[k];
        PutTo(i, children[k], k);
      }
      EndLoop(i);
    }

    method SignalAll(i: nat, children: array<nat>, numChildren: nat)
      requires Valid() && i < tree.n && batched && 0 < numChildren <= children.Length
      requires children[..numChildren] == tree.kids[NodeOf(i)] && At(i) == Signal(0)
      modifies this
      ensures Valid() && At(i) == WaitAcks
    {
      ghost var kids := tree.kids[NodeOf(i)];
      for k := 0 to numChildren
        invariant Valid() && At(i) == Signal(k)
      {
        assert children[k] == children[..numChildren][k] == kids[k];
        SignalTo(i, children[k], k);
      }
      EndLoop(i);
    }
  }
}
