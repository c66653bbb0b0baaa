/** The tree broadcasts: data, signal and ack over any tree, ordered only by fences,
    from one call that starts with every pSync zero. */
module Broadcast {
  import opened Runs
  import opened Trees

  type Bytes = seq<int>

  /** A put of data or an atomic increment under way; `epoch` counts its sender's fences before it. */
  datatype Message =
    | Data(src: nat, dst: nat, epoch: nat, value: Bytes)
    | Inc(src: nat, dst: nat, epoch: nat)

  datatype Pc =
    | WaitData          // waits until the cell is not zero
    | SendAck           // about to increment the parent's cell
    | Put(k: nat)       // about to put the data to the k-th child
    | Fence(k: nat)
    | Signal(k: nat)    // about to increment the k-th child's cell
    | WaitAcks          // waits until the cell equals its children plus its own signal
    | Clear
    | Done

  /** `batched`: all puts, one fence, all signals (tree and binomial2);
      otherwise put, fence, signal child by child (binomial).
      History: how often each target was written, whose signal and which acks are counted in each cell. */
  datatype State = State(
    tree: Tree,
    batched: bool,
    source: Bytes,
    target: seq<Bytes>,
    cell: seq<int>,
    pc: seq<Pc>,
    fences: seq<nat>,
    flight: multiset<Message>,
    writes: seq<nat>,
    signalled: seq<bool>,
    acked: seq<set<nat>>)

  datatype Event = Run(p: nat) | Deliver(m: Message)

  ghost predicate Shape(s: State) {
    && IsTree(s.tree)
    && |s.target| == |s.cell| == |s.pc| == |s.fences| == |s.writes| == |s.signalled| == |s.acked| == s.tree.n
  }

  ghost predicate Initial(s: State) {
    && Shape(s)
    && (forall p :: 0 <= p < s.tree.n ==> s.cell[p] == 0 && s.pc[p] == (if p == 0 then Put(0) else WaitData))
    && (forall p :: 0 <= p < s.tree.n ==> s.fences[p] == s.writes[p] == 0 && !s.signalled[p] && s.acked[p] == {})
    && s.flight == multiset{}
  }

  /** Puts and increments may be delivered in any order, except that one issued before a fence
      goes before one issued after it to the same PE. */
  ghost predicate Deliverable(s: State, m: Message) {
    m in s.flight && forall o :: o in s.flight && o.src == m.src && o.dst == m.dst ==> m.epoch <= o.epoch
  }

  function Expected(s: State, p: nat): nat
    requires p < |s.tree.kids|
  {
    |s.tree.kids[p]| + if p == 0 then 0 else 1
  }

  ghost predicate Enabled(s: State, e: Event)
    requires Shape(s)
  {
    match e
    case Run(p) =>
      p < s.tree.n &&
      (match s.pc[p]
       case WaitData => s.cell[p] != 0
       case SendAck => p != 0
       case Signal(k) => k <= |s.tree.kids[p]|
       case WaitAcks => s.cell[p] == Expected(s, p)
       case Done => false
       case _ => true)
    case Deliver(m) => Deliverable(s, m) && m.dst < s.tree.n
  }

  /** One statement of node p.  A node other than the root sends what is in its target. */
  ghost function RunStep(s: State, p: nat): State
    requires Shape(s) && Enabled(s, Run(p))
  {
    var kids := s.tree.kids[p];
    match s.pc[p]
    case WaitData => s.(pc := s.pc[p := SendAck])
    case SendAck => s.(flight := s.flight + multiset{Inc(p, s.tree.parent[p], s.fences[p])}, pc := s.pc[p := Put(0)])
    case Put(k) =>
      if k < |kids| then
        var value := if p == 0 then s.source else s.target[p];
        s.(flight := s.flight + multiset{Data(p, kids[k], s.fences[p], value)},
           pc := s.pc[p := if s.batched then Put(k + 1) else Fence(k)])
      else s.(pc := s.pc[p := if |kids| == 0 then Clear else if s.batched then Fence(0) else WaitAcks])
    case Fence(k) => s.(fences := s.fences[p := s.fences[p] + 1], pc := s.pc[p := Signal(if s.batched then 0 else k)])
    case Signal(k) =>
      if k < |kids| then
        s.(flight := s.flight + multiset{Inc(p, kids[k], s.fences[p])},
           pc := s.pc[p := if s.batched then Signal(k + 1) else Put(k + 1)])
      else s.(pc := s.pc[p := WaitAcks])
    case WaitAcks => s.(pc := s.pc[p := Clear])
    case Clear => s.(cell := s.cell[p := 0], pc := s.pc[p := Done])
  }

  ghost function DeliverStep(s: State, m: Message): State
    requires Shape(s) && Enabled(s, Deliver(m))
  {
    var d := m.dst;
    var s1 := s.(flight := s.flight - multiset{m});
    match m
    case Data(_, _, _, v) => s1.(target := s.target[d := v], writes := s.writes[d := s.writes[d] + 1])
    case Inc(src, _, _) =>
      var s2 := s1.(cell := s.cell[d := s.cell[d] + 1]);
      if src == s.tree.parent[d] then s2.(signalled := s.signalled[d := true])
      else s2.(acked := s.acked[d := s.acked[d] + {src}])
  }

  ghost function Apply(s: State, e: Event): (t: State)
    requires Shape(s) && Enabled(s, e)
    ensures Shape(t) && t.tree == s.tree && t.batched == s.batched && t.source == s.source
  {
    match e
    case Run(p) => RunStep(s, p)
    case Deliver(m) => DeliverStep(s, m)
  }

  ghost predicate Next(s: State, t: State) {
    Shape(s) && exists e :: Enabled(s, e) && t == Apply(s, e)
  }

  // ------------------------------------------------------------ invariant

  /** How many children node p has sent the data to, and signalled. */
  ghost function PutsDone(s: State, p: nat): nat requires Shape(s) && p < s.tree.n {
    match s.pc[p]
    case WaitData => 0
    case SendAck => 0
    case Put(k) => k
    case Fence(k) => if s.batched then |s.tree.kids[p]| else k + 1
    case Signal(k) => if s.batched then |s.tree.kids[p]| else k + 1
    case _ => |s.tree.kids[p]|
  }
  ghost function SignalsDone(s: State, p: nat): nat requires Shape(s) && p < s.tree.n {
    match s.pc[p]
    case WaitData => 0
    case SendAck => 0
    case Put(k) => if s.batched then 0 else k
    case Fence(k) => if s.batched then 0 else k
    case Signal(k) => k
    case _ => |s.tree.kids[p]|
  }
  ghost function FencesDone(s: State, p: nat): nat requires Shape(s) && p < s.tree.n {
    if s.batched then
      if s.pc[p].Signal? || s.pc[p].WaitAcks? || ((s.pc[p].Clear? || s.pc[p].Done?) && |s.tree.kids[p]| > 0)
      then 1 else 0
    else if s.pc[p].Signal? then s.pc[p].k + 1
    else SignalsDone(s, p)
  }
  ghost function AckDone(s: State, c: nat): nat requires Shape(s) && c < s.tree.n {
    if s.pc[c].WaitData? || s.pc[c].SendAck? then 0 else 1
  }

  ghost function Index(l: seq<nat>, c: nat): (i: nat)
    requires c in l
    ensures i < |l| && l[i] == c
  {
    var i: nat :| i < |l| && l[i] == c; i
  }

  /** The three messages that travel along the edge above node c. */
  ghost function Rank(s: State, c: nat): nat requires Shape(s) && 1 <= c < s.tree.n {
    Index(s.tree.kids[s.tree.parent[c]], c)
  }
  ghost function DataTo(s: State, c: nat): Message requires Shape(s) && 1 <= c < s.tree.n {
    Data(s.tree.parent[c], c, if s.batched then 0 else Rank(s, c), s.source)
  }
  ghost function SignalTo(s: State, c: nat): Message requires Shape(s) && 1 <= c < s.tree.n {
    Inc(s.tree.parent[c], c, if s.batched then 1 else Rank(s, c) + 1)
  }
  ghost function AckFrom(s: State, c: nat): Message requires Shape(s) && 1 <= c < s.tree.n {
    Inc(c, s.tree.parent[c], 0)
  }

  ghost predicate NodeOk(s: State, i: int)
    requires Shape(s)
  {
    0 <= i < s.tree.n ==>
      && PutsDone(s, i) <= |s.tree.kids[i]| && SignalsDone(s, i) <= |s.tree.kids[i]|
      && s.fences[i] == FencesDone(s, i)
      && (s.pc[i].Fence? ==> |s.tree.kids[i]| > 0 && (s.batched ==> s.pc[i].k == 0))
      && (s.pc[i].Signal? && !s.batched ==> s.pc[i].k < |s.tree.kids[i]|)
      && (s.pc[i].Signal? || s.pc[i].WaitAcks? ==> |s.tree.kids[i]| > 0)
      && (forall c :: c in s.acked[i] ==> c in s.tree.kids[i])
      && s.cell[i] == (if s.pc[i].Done? then 0 else |s.acked[i]| + (if s.signalled[i] then 1 else 0))
      && (s.pc[i].Clear? || s.pc[i].Done? ==> forall c :: c in s.tree.kids[i] ==> c in s.acked[i])
      && (if i == 0 then !s.pc[i].WaitData? && !s.pc[i].SendAck? && !s.signalled[i] && s.writes[i] == 0
          else !s.pc[i].WaitData? ==> s.signalled[i])
  }

  /** Along each edge the data, the signal and the ack are sent once and land once, and the signal
      lands only after the data. */
  ghost predicate EdgeOk(s: State, c: int)
    requires Shape(s)
  {
    1 <= c < s.tree.n ==>
      var p, i := s.tree.parent[c], Rank(s, c);
      && s.writes[c] + s.flight[DataTo(s, c)] == (if i < PutsDone(s, p) then 1 else 0)
      && (if s.signalled[c] then 1 else 0) + s.flight[SignalTo(s, c)] == (if i < SignalsDone(s, p) then 1 else 0)
      && (if c in s.acked[p] then 1 else 0) + s.flight[AckFrom(s, c)] == AckDone(s, c)
      && (s.signalled[c] ==> s.writes[c] == 1)
      && (s.writes[c] == 1 ==> s.target[c] == s.source)
  }

  ghost predicate MessageOk(s: State, m: Message)
    requires Shape(s)
  {
    m in s.flight ==>
      || (1 <= m.dst < s.tree.n && (m == DataTo(s, m.dst) || m == SignalTo(s, m.dst)))
      || (1 <= m.src < s.tree.n && m == AckFrom(s, m.src))
  }

  ghost predicate Inv(s: State) {
    && Shape(s)
    && (forall i {:trigger NodeOk(s, i)} :: NodeOk(s, i))
    && (forall c {:trigger EdgeOk(s, c)} :: EdgeOk(s, c))
    && (forall m {:trigger MessageOk(s, m)} :: MessageOk(s, m))
  }

  lemma InitialInv(s: State)
    requires Initial(s)
    ensures Inv(s)
  {
    forall c ensures EdgeOk(s, c) {}
  }

  /** Before its own signal lands a node has no acks. */
  lemma WaitingHasNoAcks(s: State, p: nat)
    requires Inv(s) && p < s.tree.n && s.pc[p].WaitData?
    ensures s.acked[p] == {}
  {
    assert NodeOk(s, p);
    forall c | c in s.tree.kids[p] ensures c !in s.acked[p] { assert EdgeOk(s, c) && NodeOk(s, c); }
  }

  /** When the cell reaches the awaited value every child has acked. */
  lemma AckCount(s: State, p: nat)
    requires Inv(s) && p < s.tree.n
    ensures |s.acked[p]| <= |s.tree.kids[p]|
    ensures |s.acked[p]| == |s.tree.kids[p]| <==> forall c :: c in s.tree.kids[p] ==> c in s.acked[p]
  {
    assert NodeOk(s, p);
    SubsetOfList(s.acked[p], s.tree.kids[p]);
  }

  /** Steps that neither send nor receive. */
  lemma QuietNodes(s: State, p: nat, t: State)
    requires Inv(s) && Enabled(s, Run(p)) && t == Apply(s, Run(p))
    requires s.pc[p].WaitData? || s.pc[p].Fence? || s.pc[p].WaitAcks? || s.pc[p].Clear?
             || (s.pc[p].Put? && s.pc[p].k >= |s.tree.kids[p]|) || (s.pc[p].Signal? && s.pc[p].k >= |s.tree.kids[p]|)
    ensures forall i {:trigger NodeOk(t, i)} :: NodeOk(t, i)
  {
    QuietNode(s, p, t);
    forall i ensures NodeOk(t, i) {
      assert NodeOk(s, i);
      if i != p { SameNode(s, t, i); }
    }
  }

  lemma QuietNode(s: State, p: nat, t: State)
    requires Inv(s) && Enabled(s, Run(p)) && t == Apply(s, Run(p))
    requires s.pc[p].WaitData? || s.pc[p].Fence? || s.pc[p].WaitAcks? || s.pc[p].Clear?
             || (s.pc[p].Put? && s.pc[p].k >= |s.tree.kids[p]|) || (s.pc[p].Signal? && s.pc[p].k >= |s.tree.kids[p]|)
    ensures NodeOk(t, p)
  {
    assert NodeOk(s, p) && EdgeOk(s, p);
    if s.pc[p].WaitData? { WaitingHasNoAcks(s, p); }
    AckCount(s, p);
  }

  /** A node whose own part of the state is the same. */
  lemma SameNode(s: State, t: State, i: int)
    requires Shape(s) && Shape(t) && t.tree == s.tree && t.batched == s.batched && NodeOk(s, i)
    requires 0 <= i < s.tree.n ==>
               t.pc[i] == s.pc[i] && t.fences[i] == s.fences[i] && t.acked[i] == s.acked[i] && t.cell[i] == s.cell[i]
               && t.signalled[i] == s.signalled[i] && t.writes[i] == s.writes[i]
    ensures NodeOk(t, i)
  {
  }

  lemma QuietCounts(s: State, p: nat, t: State)
    requires Inv(s) && Enabled(s, Run(p)) && t == Apply(s, Run(p))
    requires s.pc[p].WaitData? || s.pc[p].Fence? || s.pc[p].WaitAcks? || s.pc[p].Clear?
             || (s.pc[p].Put? && s.pc[p].k >= |s.tree.kids[p]|) || (s.pc[p].Signal? && s.pc[p].k >= |s.tree.kids[p]|)
    ensures forall q: nat :: q < s.tree.n ==> PutsDone(t, q) == PutsDone(s, q) && SignalsDone(t, q) == SignalsDone(s, q)
    ensures forall q: nat :: q < s.tree.n ==> AckDone(t, q) == AckDone(s, q)
    ensures t.flight == s.flight && t.writes == s.writes && t.signalled == s.signalled && t.acked == s.acked
            && t.target == s.target
  {
    assert NodeOk(s, p);
  }

  lemma QuietEdges(s: State, p: nat, t: State)
    requires Inv(s) && Enabled(s, Run(p)) && t == Apply(s, Run(p))
    requires s.pc[p].WaitData? || s.pc[p].Fence? || s.pc[p].WaitAcks? || s.pc[p].Clear?
             || (s.pc[p].Put? && s.pc[p].k >= |s.tree.kids[p]|) || (s.pc[p].Signal? && s.pc[p].k >= |s.tree.kids[p]|)
    ensures forall c {:trigger EdgeOk(t, c)} :: EdgeOk(t, c)
  {
    QuietCounts(s, p, t);
    forall c ensures EdgeOk(t, c) { assert EdgeOk(s, c); }
  }

  lemma QuietMessages(s: State, p: nat, t: State)
    requires Inv(s) && Enabled(s, Run(p)) && t == Apply(s, Run(p))
    requires s.pc[p].WaitData? || s.pc[p].Fence? || s.pc[p].WaitAcks? || s.pc[p].Clear?
             || (s.pc[p].Put? && s.pc[p].k >= |s.tree.kids[p]|) || (s.pc[p].Signal? && s.pc[p].k >= |s.tree.kids[p]|)
    ensures forall o {:trigger MessageOk(t, o)} :: MessageOk(t, o)
  {
    assert NodeOk(s, p) && EdgeOk(s, p);
    AckCount(s, p);
    forall o ensures MessageOk(t, o) { assert MessageOk(s, o); }
  }

  lemma KeepQuiet(s: State, p: nat)
    requires Inv(s) && Enabled(s, Run(p))
    requires s.pc[p].WaitData? || s.pc[p].Fence? || s.pc[p].WaitAcks? || s.pc[p].Clear?
             || (s.pc[p].Put? && s.pc[p].k >= |s.tree.kids[p]|) || (s.pc[p].Signal? && s.pc[p].k >= |s.tree.kids[p]|)
    ensures Inv(Apply(s, Run(p)))
  {
    var t := Apply(s, Run(p));
    QuietNodes(s, p, t);
    QuietEdges(s, p, t);
    QuietMessages(s, p, t);
  }

  lemma SendAckNodes(s: State, p: nat, t: State)
    requires Inv(s) && Enabled(s, Run(p)) && t == Apply(s, Run(p))
    requires s.pc[p].SendAck?
    ensures forall i {:trigger NodeOk(t, i)} :: NodeOk(t, i)
  {
    assert NodeOk(s, p) && EdgeOk(s, p);
    forall i ensures NodeOk(t, i) { assert NodeOk(s, i); }
  }

  lemma SendAckEdges(s: State, p: nat, t: State)
    requires Inv(s) && Enabled(s, Run(p)) && t == Apply(s, Run(p))
    requires s.pc[p].SendAck?
    ensures forall c {:trigger EdgeOk(t, c)} :: EdgeOk(t, c)
  {
    assert NodeOk(s, p) && EdgeOk(s, p);
    forall c ensures EdgeOk(t, c) { assert EdgeOk(s, c); }
  }

  lemma SendAckMessages(s: State, p: nat, t: State)
    requires Inv(s) && Enabled(s, Run(p)) && t == Apply(s, Run(p))
    requires s.pc[p].SendAck?
    ensures forall o {:trigger MessageOk(t, o)} :: MessageOk(t, o)
  {
    assert NodeOk(s, p) && EdgeOk(s, p);
    forall o ensures MessageOk(t, o) { assert MessageOk(s, o); }
  }

  lemma KeepSendAck(s: State, p: nat)
    requires Inv(s) && Enabled(s, Run(p))
    requires s.pc[p].SendAck?
    ensures Inv(Apply(s, Run(p)))
  {
    var t := Apply(s, Run(p));
    SendAckNodes(s, p, t);
    SendAckEdges(s, p, t);
    SendAckMessages(s, p, t);
  }

  lemma PutNodes(s: State, p: nat, t: State)
    requires Inv(s) && Enabled(s, Run(p)) && t == Apply(s, Run(p))
    requires s.pc[p].Put? && s.pc[p].k < |s.tree.kids[p]|
    ensures forall i {:trigger NodeOk(t, i)} :: NodeOk(t, i)
  {
    forall i ensures NodeOk(t, i) { PutNode(s, p, t, i); }
  }

  lemma PutNode(s: State, p: nat, t: State, i: int)
    requires Inv(s) && Enabled(s, Run(p)) && t == Apply(s, Run(p))
    requires s.pc[p].Put? && s.pc[p].k < |s.tree.kids[p]|
    ensures NodeOk(t, i)
  {
    assert NodeOk(s, p) && NodeOk(s, i);
  }

  lemma PutCounts(s: State, p: nat, t: State)
    requires Inv(s) && Enabled(s, Run(p)) && t == Apply(s, Run(p))
    requires s.pc[p].Put? && s.pc[p].k < |s.tree.kids[p]|
    ensures forall q: nat :: q < s.tree.n ==> PutsDone(t, q) == (if q == p then s.pc[p].k + 1 else PutsDone(s, q))
    ensures forall q: nat :: q < s.tree.n ==> SignalsDone(t, q) == SignalsDone(s, q) && AckDone(t, q) == AckDone(s, q)
    ensures t.writes == s.writes && t.signalled == s.signalled && t.acked == s.acked && t.target == s.target
    ensures 1 <= s.tree.kids[p][s.pc[p].k] < s.tree.n
    ensures t.flight == s.flight + multiset{DataTo(s, s.tree.kids[p][s.pc[p].k])}
  {
    var c0 := s.tree.kids[p][s.pc[p].k];
    assert c0 in s.tree.kids[p];
    assert NodeOk(s, p) && EdgeOk(s, p);
  }

  lemma PutEdges(s: State, p: nat, t: State)
    requires Inv(s) && Enabled(s, Run(p)) && t == Apply(s, Run(p))
    requires s.pc[p].Put? && s.pc[p].k < |s.tree.kids[p]|
    ensures forall c {:trigger EdgeOk(t, c)} :: EdgeOk(t, c)
  {
    var c0 := s.tree.kids[p][s.pc[p].k];
    assert c0 in s.tree.kids[p];
    assert Rank(s, c0) == s.pc[p].k;
    PutCounts(s, p, t);
    forall c ensures EdgeOk(t, c) { assert EdgeOk(s, c); }
  }

  lemma PutMessages(s: State, p: nat, t: State)
    requires Inv(s) && Enabled(s, Run(p)) && t == Apply(s, Run(p))
    requires s.pc[p].Put? && s.pc[p].k < |s.tree.kids[p]|
    ensures forall o {:trigger MessageOk(t, o)} :: MessageOk(t, o)
  {
    var c0 := s.tree.kids[p][s.pc[p].k];
    assert c0 in s.tree.kids[p];
    assert Rank(s, c0) == s.pc[p].k;
    assert NodeOk(s, p) && EdgeOk(s, p) && EdgeOk(s, c0);
    forall o ensures MessageOk(t, o) { assert MessageOk(s, o); }
  }

  lemma KeepPut(s: State, p: nat)
    requires Inv(s) && Enabled(s, Run(p))
    requires s.pc[p].Put? && s.pc[p].k < |s.tree.kids[p]|
    ensures Inv(Apply(s, Run(p)))
  {
    var t := Apply(s, Run(p));
    PutNodes(s, p, t);
    PutEdges(s, p, t);
    PutMessages(s, p, t);
  }

  lemma SignalNodes(s: State, p: nat, t: State)
    requires Inv(s) && Enabled(s, Run(p)) && t == Apply(s, Run(p))
    requires s.pc[p].Signal? && s.pc[p].k < |s.tree.kids[p]|
    ensures forall i {:trigger NodeOk(t, i)} :: NodeOk(t, i)
  {
    var c0 := s.tree.kids[p][s.pc[p].k];
    assert c0 in s.tree.kids[p];
    assert Rank(s, c0) == s.pc[p].k;
    assert NodeOk(s, p) && EdgeOk(s, p) && EdgeOk(s, c0);
    forall i ensures NodeOk(t, i) { assert NodeOk(s, i); }
  }

  lemma SignalEdges(s: State, p: nat, t: State)
    requires Inv(s) && Enabled(s, Run(p)) && t == Apply(s, Run(p))
    requires s.pc[p].Signal? && s.pc[p].k < |s.tree.kids[p]|
    ensures forall c {:trigger EdgeOk(t, c)} :: EdgeOk(t, c)
  {
    forall c ensures EdgeOk(t, c) { SignalEdge(s, p, t, c); }
  }

  lemma SignalEdge(s: State, p: nat, t: State, c: int)
    requires Inv(s) && Enabled(s, Run(p)) && t == Apply(s, Run(p))
    requires s.pc[p].Signal? && s.pc[p].k < |s.tree.kids[p]|
    ensures EdgeOk(t, c)
  {
    var c0 := s.tree.kids[p][s.pc[p].k];
    SignalCounts(s, p, t);
    assert c0 in s.tree.kids[p];
    assert Rank(s, c0) == s.pc[p].k;
    assert EdgeOk(s, c);
  }

  lemma SignalCounts(s: State, p: nat, t: State)
    requires Inv(s) && Enabled(s, Run(p)) && t == Apply(s, Run(p))
    requires s.pc[p].Signal? && s.pc[p].k < |s.tree.kids[p]|
    ensures forall q: nat :: q < s.tree.n ==> SignalsDone(t, q) == (if q == p then s.pc[p].k + 1 else SignalsDone(s, q))
    ensures forall q: nat :: q < s.tree.n ==> PutsDone(t, q) == PutsDone(s, q) && AckDone(t, q) == AckDone(s, q)
    ensures t.writes == s.writes && t.signalled == s.signalled && t.acked == s.acked && t.target == s.target
    ensures 1 <= s.tree.kids[p][s.pc[p].k] < s.tree.n
    ensures t.flight == s.flight + multiset{SignalTo(s, s.tree.kids[p][s.pc[p].k])}
  {
    var c0 := s.tree.kids[p][s.pc[p].k];
    assert c0 in s.tree.kids[p];
    assert NodeOk(s, p) && EdgeOk(s, p);
  }

  lemma SignalMessages(s: State, p: nat, t: State)
    requires Inv(s) && Enabled(s, Run(p)) && t == Apply(s, Run(p))
    requires s.pc[p].Signal? && s.pc[p].k < |s.tree.kids[p]|
    ensures forall o {:trigger MessageOk(t, o)} :: MessageOk(t, o)
  {
    var c0 := s.tree.kids[p][s.pc[p].k];
    assert c0 in s.tree.kids[p];
    assert Rank(s, c0) == s.pc[p].k;
    assert NodeOk(s, p) && EdgeOk(s, p) && EdgeOk(s, c0);
    forall o ensures MessageOk(t, o) { assert MessageOk(s, o); }
  }

  lemma KeepSignal(s: State, p: nat)
    requires Inv(s) && Enabled(s, Run(p))
    requires s.pc[p].Signal? && s.pc[p].k < |s.tree.kids[p]|
    ensures Inv(Apply(s, Run(p)))
  {
    var t := Apply(s, Run(p));
    SignalNodes(s, p, t);
    SignalEdges(s, p, t);
    SignalMessages(s, p, t);
  }

  lemma DeliverDataNodes(s: State, m: Message, t: State)
    requires Inv(s) && Enabled(s, Deliver(m)) && t == Apply(s, Deliver(m))
    requires m.Data?
    ensures forall i {:trigger NodeOk(t, i)} :: NodeOk(t, i)
  {
    assert MessageOk(s, m) && EdgeOk(s, m.dst);
    forall i ensures NodeOk(t, i) { assert NodeOk(s, i); }
  }

  /** An edge whose own part of the state a delivery leaves alone. */
  lemma SameEdge(s: State, t: State, c: int)
    requires Shape(s) && Shape(t) && t.tree == s.tree && t.batched == s.batched && t.source == s.source && t.pc == s.pc
    requires EdgeOk(s, c)
    requires 1 <= c < s.tree.n ==>
               var p := s.tree.parent[c];
               && t.writes[c] == s.writes[c] && t.target[c] == s.target[c] && t.signalled[c] == s.signalled[c]
               && (c in t.acked[p] <==> c in s.acked[p])
               && t.flight[DataTo(s, c)] == s.flight[DataTo(s, c)]
               && t.flight[SignalTo(s, c)] == s.flight[SignalTo(s, c)]
               && t.flight[AckFrom(s, c)] == s.flight[AckFrom(s, c)]
    ensures EdgeOk(t, c)
  {
  }

  lemma DeliverDataEdges(s: State, m: Message, t: State)
    requires Inv(s) && Enabled(s, Deliver(m)) && t == Apply(s, Deliver(m))
    requires m.Data?
    ensures forall c {:trigger EdgeOk(t, c)} :: EdgeOk(t, c)
  {
    DeliverDataEdge(s, m, t);
    forall c ensures EdgeOk(t, c) {
      if c != m.dst { DeliverDataOther(s, m, t, c); }
    }
  }

  lemma DeliverDataEdge(s: State, m: Message, t: State)
    requires Inv(s) && Enabled(s, Deliver(m)) && t == Apply(s, Deliver(m))
    requires m.Data?
    ensures EdgeOk(t, m.dst)
  {
    assert MessageOk(s, m) && EdgeOk(s, m.dst);
  }

  lemma DeliverDataOther(s: State, m: Message, t: State, c: int)
    requires Inv(s) && Enabled(s, Deliver(m)) && t == Apply(s, Deliver(m))
    requires m.Data? && c != m.dst
    ensures EdgeOk(t, c)
  {
    assert EdgeOk(s, c) && MessageOk(s, m);
    SameEdge(s, t, c);
  }

  lemma DeliverDataMessages(s: State, m: Message, t: State)
    requires Inv(s) && Enabled(s, Deliver(m)) && t == Apply(s, Deliver(m))
    requires m.Data?
    ensures forall o {:trigger MessageOk(t, o)} :: MessageOk(t, o)
  {
    assert MessageOk(s, m) && EdgeOk(s, m.dst);
    forall o ensures MessageOk(t, o) { assert MessageOk(s, o); }
  }

  lemma KeepDeliverData(s: State, m: Message)
    requires Inv(s) && Enabled(s, Deliver(m))
    requires m.Data?
    ensures Inv(Apply(s, Deliver(m)))
  {
    var t := Apply(s, Deliver(m));
    DeliverDataNodes(s, m, t);
    DeliverDataEdges(s, m, t);
    DeliverDataMessages(s, m, t);
  }

  /** The fence holds the signal back until the data has landed. */
  lemma DeliverSignalNodes(s: State, m: Message, t: State)
    requires Inv(s) && Enabled(s, Deliver(m)) && t == Apply(s, Deliver(m))
    requires m.Inc? && m.src == s.tree.parent[m.dst]
    ensures forall i {:trigger NodeOk(t, i)} :: NodeOk(t, i)
  {
    assert MessageOk(s, m) && EdgeOk(s, m.dst) && NodeOk(s, m.dst) && NodeOk(s, m.src);
    assert m == SignalTo(s, m.dst);
    assert DataTo(s, m.dst) !in s.flight;
    forall i ensures NodeOk(t, i) { assert NodeOk(s, i); }
  }

  lemma DeliverSignalEdges(s: State, m: Message, t: State)
    requires Inv(s) && Enabled(s, Deliver(m)) && t == Apply(s, Deliver(m))
    requires m.Inc? && m.src == s.tree.parent[m.dst]
    ensures forall c {:trigger EdgeOk(t, c)} :: EdgeOk(t, c)
  {
    DeliverSignalEdge(s, m, t);
    forall c ensures EdgeOk(t, c) {
      if c != m.dst { DeliverSignalOther(s, m, t, c); }
    }
  }

  lemma DeliverSignalEdge(s: State, m: Message, t: State)
    requires Inv(s) && Enabled(s, Deliver(m)) && t == Apply(s, Deliver(m))
    requires m.Inc? && m.src == s.tree.parent[m.dst]
    ensures EdgeOk(t, m.dst)
  {
    assert MessageOk(s, m) && EdgeOk(s, m.dst) && NodeOk(s, m.dst) && NodeOk(s, m.src);
    assert m == SignalTo(s, m.dst);
    assert DataTo(s, m.dst) !in s.flight;
  }

  lemma DeliverSignalOther(s: State, m: Message, t: State, c: int)
    requires Inv(s) && Enabled(s, Deliver(m)) && t == Apply(s, Deliver(m))
    requires m.Inc? && m.src == s.tree.parent[m.dst] && c != m.dst
    ensures EdgeOk(t, c)
  {
    assert EdgeOk(s, c) && MessageOk(s, m);
    SameEdge(s, t, c);
  }

  lemma DeliverSignalMessages(s: State, m: Message, t: State)
    requires Inv(s) && Enabled(s, Deliver(m)) && t == Apply(s, Deliver(m))
    requires m.Inc? && m.src == s.tree.parent[m.dst]
    ensures forall o {:trigger MessageOk(t, o)} :: MessageOk(t, o)
  {
    assert MessageOk(s, m) && EdgeOk(s, m.dst) && NodeOk(s, m.dst) && NodeOk(s, m.src);
    assert m == SignalTo(s, m.dst);
    assert DataTo(s, m.dst) !in s.flight;
    forall o ensures MessageOk(t, o) { assert MessageOk(s, o); }
  }

  lemma KeepDeliverSignal(s: State, m: Message)
    requires Inv(s) && Enabled(s, Deliver(m))
    requires m.Inc? && m.src == s.tree.parent[m.dst]
    ensures Inv(Apply(s, Deliver(m)))
  {
    var t := Apply(s, Deliver(m));
    DeliverSignalNodes(s, m, t);
    DeliverSignalEdges(s, m, t);
    DeliverSignalMessages(s, m, t);
  }

  lemma DeliverAckNodes(s: State, m: Message, t: State)
    requires Inv(s) && Enabled(s, Deliver(m)) && t == Apply(s, Deliver(m))
    requires m.Inc? && m.src != s.tree.parent[m.dst]
    ensures forall i {:trigger NodeOk(t, i)} :: NodeOk(t, i)
  {
    forall i ensures NodeOk(t, i) { DeliverAckNode(s, m, t, i); }
  }

  lemma DeliverAckNode(s: State, m: Message, t: State, i: int)
    requires Inv(s) && Enabled(s, Deliver(m)) && t == Apply(s, Deliver(m))
    requires m.Inc? && m.src != s.tree.parent[m.dst]
    ensures NodeOk(t, i)
  {
    if i == m.dst {
      DeliverAckParent(s, m, t);
    } else {
      assert NodeOk(s, i) && MessageOk(s, m);
      SameNode(s, t, i);
    }
  }

  lemma DeliverAckParent(s: State, m: Message, t: State)
    requires Inv(s) && Enabled(s, Deliver(m)) && t == Apply(s, Deliver(m))
    requires m.Inc? && m.src != s.tree.parent[m.dst]
    ensures NodeOk(t, m.dst)
  {
    assert MessageOk(s, m) && NodeOk(s, m.dst) && EdgeOk(s, m.src);
  }

  lemma DeliverAckEdge(s: State, m: Message, t: State)
    requires Inv(s) && Enabled(s, Deliver(m)) && t == Apply(s, Deliver(m))
    requires m.Inc? && m.src != s.tree.parent[m.dst]
    ensures EdgeOk(t, m.src)
  {
    assert MessageOk(s, m) && EdgeOk(s, m.src);
  }

  lemma DeliverAckOther(s: State, m: Message, t: State, c: int)
    requires Inv(s) && Enabled(s, Deliver(m)) && t == Apply(s, Deliver(m))
    requires m.Inc? && m.src != s.tree.parent[m.dst] && c != m.src
    ensures EdgeOk(t, c)
  {
    assert EdgeOk(s, c) && MessageOk(s, m);
    SameEdge(s, t, c);
  }

  lemma DeliverAckEdges(s: State, m: Message, t: State)
    requires Inv(s) && Enabled(s, Deliver(m)) && t == Apply(s, Deliver(m))
    requires m.Inc? && m.src != s.tree.parent[m.dst]
    ensures forall c {:trigger EdgeOk(t, c)} :: EdgeOk(t, c)
  {
    DeliverAckEdge(s, m, t);
    forall c ensures EdgeOk(t, c) {
      if c != m.src { DeliverAckOther(s, m, t, c); }
    }
  }

  lemma DeliverAckMessages(s: State, m: Message, t: State)
    requires Inv(s) && Enabled(s, Deliver(m)) && t == Apply(s, Deliver(m))
    requires m.Inc? && m.src != s.tree.parent[m.dst]
    ensures forall o {:trigger MessageOk(t, o)} :: MessageOk(t, o)
  {
    assert MessageOk(s, m) && EdgeOk(s, m.src) && NodeOk(s, m.dst);
    forall o ensures MessageOk(t, o) { assert MessageOk(s, o); }
  }

  lemma KeepDeliverAck(s: State, m: Message)
    requires Inv(s) && Enabled(s, Deliver(m))
    requires m.Inc? && m.src != s.tree.parent[m.dst]
    ensures Inv(Apply(s, Deliver(m)))
  {
    var t := Apply(s, Deliver(m));
    DeliverAckNodes(s, m, t);
    DeliverAckEdges(s, m, t);
    DeliverAckMessages(s, m, t);
  }

  lemma StepKeepsInv(s: State, t: State)
    requires Inv(s) && Next(s, t)
    ensures Inv(t)
  {
    var e :| Enabled(s, e) && t == Apply(s, e);
    match e
    case Run(p) =>
      if s.pc[p].SendAck? { KeepSendAck(s, p); }
      else if s.pc[p].Put? && s.pc[p].k < |s.tree.kids[p]| { KeepPut(s, p); }
      else if s.pc[p].Signal? && s.pc[p].k < |s.tree.kids[p]| { KeepSignal(s, p); }
      else { KeepQuiet(s, p); }
    case Deliver(m) =>
      if m.Data? { KeepDeliverData(s, m); }
      else if m.src == s.tree.parent[m.dst] { KeepDeliverSignal(s, m); }
      else { KeepDeliverAck(s, m); }
  }

  ghost predicate Reached(s: State) { Reachable(Initial, Next, s) }

  lemma ReachedInv(s: State)
    requires Reached(s)
    ensures Inv(s)
  {
    forall t | Initial(t) ensures Inv(t) { InitialInv(t); }
    forall t, u | Inv(t) && Next(t, u) ensures Inv(u) { StepKeepsInv(t, u); }
    ReachableInvariant(Initial, Next, Inv, s);
  }

  // ---------------------------------------------------------------- safety

  ghost predicate AllDone(s: State) {
    Shape(s) && forall p :: 0 <= p < s.tree.n ==> s.pc[p] == Done
  }

  /** When every node has returned, every target but the root's holds the root's source and was written
      exactly once, the root's target was never written, every pSync is zero again, and nothing is in flight. */
  lemma EverybodyHasTheData(s: State)
    requires Reached(s) && AllDone(s)
    ensures forall c :: 1 <= c < s.tree.n ==> s.target[c] == s.source && s.writes[c] == 1
    ensures s.writes[0] == 0
    ensures forall p :: 0 <= p < s.tree.n ==> s.cell[p] == 0
    ensures s.flight == multiset{}
  {
    ReachedInv(s);
    forall p | 0 <= p < s.tree.n ensures s.cell[p] == 0 && (p > 0 ==> s.target[p] == s.source && s.writes[p] == 1) {
      assert NodeOk(s, p) && EdgeOk(s, p);
    }
    assert NodeOk(s, 0);
    forall m ensures m !in s.flight { DoneLeavesNothing(s, m); }
  }

  lemma DoneLeavesNothing(s: State, m: Message)
    requires Inv(s) && AllDone(s)
    ensures m !in s.flight
  {
    assert MessageOk(s, m);
    if 1 <= m.dst < s.tree.n && (m == DataTo(s, m.dst) || m == SignalTo(s, m.dst)) {
      assert EdgeOk(s, m.dst) && NodeOk(s, m.dst);
    } else if 1 <= m.src < s.tree.n && m == AckFrom(s, m.src) {
      assert EdgeOk(s, m.src) && NodeOk(s, s.tree.parent[m.src]);
    }
  }

  /** Whenever a node has gone past its wait its own target is already final, and whatever data
      is on its way is the root's: stale data is never forwarded. */
  lemma NothingStale(s: State, p: nat, m: Message)
    requires Reached(s) && Shape(s)
    ensures 1 <= p < s.tree.n && !s.pc[p].WaitData? ==> s.target[p] == s.source && s.writes[p] == 1
    ensures m in s.flight && m.Data? ==> m.value == s.source
  {
    ReachedInv(s);
    assert NodeOk(s, p) && EdgeOk(s, p) && MessageOk(s, m);
  }

  /** The ack wait cannot be jumped over, and while a node waits for data its cell counts nothing but its signal. */
  lemma WaitsNotOvershot(s: State, p: nat)
    requires Reached(s) && Shape(s) && p < s.tree.n
    ensures 0 <= s.cell[p] <= Expected(s, p)
    ensures s.pc[p].WaitData? ==> s.cell[p] == if s.signalled[p] then 1 else 0
  {
    ReachedInv(s);
    assert NodeOk(s, p);
    AckCount(s, p);
    if s.pc[p].WaitData? { WaitingHasNoAcks(s, p); }
  }

  // ------------------------------------------------------------- liveness

  /** The data to a node is never behind a fence that its own signal passed, so something can always land. */
  lemma SomethingLands(s: State, m: Message)
    requires Inv(s) && m in s.flight
    ensures exists o :: Enabled(s, Deliver(o))
  {
    assert MessageOk(s, m);
    if 1 <= m.dst < s.tree.n && m == SignalTo(s, m.dst) && DataTo(s, m.dst) in s.flight {
      LandsFirst(s, DataTo(s, m.dst));
    } else {
      LandsFirst(s, m);
    }
  }

  lemma LandsFirst(s: State, m: Message)
    requires Inv(s) && m in s.flight
    requires 1 <= m.dst < s.tree.n && m == SignalTo(s, m.dst) ==> DataTo(s, m.dst) !in s.flight
    ensures Enabled(s, Deliver(m))
  {
    assert MessageOk(s, m);
    forall o | o in s.flight && o.src == m.src && o.dst == m.dst ensures m.epoch <= o.epoch {
      assert MessageOk(s, o);
    }
  }

  ghost predicate Stuck(s: State) requires Shape(s) {
    s.flight == multiset{} && forall q: nat :: q < s.tree.n ==> !Enabled(s, Run(q))
  }

  /** In a stuck state every node has been signalled, from the root down. */
  lemma {:induction false} StuckPastData(s: State, c: nat)
    requires Inv(s) && Stuck(s) && c < s.tree.n
    ensures s.pc[c].WaitAcks? || s.pc[c].Done?
    decreases c
  {
    assert NodeOk(s, c) && !Enabled(s, Run(c));
    if c > 0 && s.pc[c].WaitData? {
      var p := s.tree.parent[c];
      StuckPastData(s, p);
      assert EdgeOk(s, c);
    }
  }

  lemma NoDeadlock(s: State)
    requires Reached(s) && !AllDone(s)
    ensures exists t :: Next(s, t)
  {
    ReachedInv(s);
    if Stuck(s) {
      var p :| 0 <= p < s.tree.n && s.pc[p] != Done;
      StuckPastData(s, p);
      assert NodeOk(s, p) && EdgeOk(s, p) && !Enabled(s, Run(p));
      forall c | c in s.tree.kids[p] ensures c in s.acked[p] {
        StuckPastData(s, c);
        assert EdgeOk(s, c);
      }
      AckCount(s, p);
    } else if m :| m in s.flight {
      SomethingLands(s, m);
      var o :| Enabled(s, Deliver(o));
      assert Next(s, Apply(s, Deliver(o)));
    } else {
      var q: nat :| q < s.tree.n && Enabled(s, Run(q));
      assert Next(s, Apply(s, Run(q)));
    }
  }

  function Weight(kids: nat, pc: Pc): nat {
    match pc
    case WaitData => 5 * kids + 10
    case SendAck => 5 * kids + 9
    case Put(k) => if k <= kids then 5 * (kids - k) + 7 else 0
    case Fence(k) => if k <= kids then 5 * (kids - k) + 5 else 0
    case Signal(k) => if k <= kids then 5 * (kids - k) + 4 else 0
    case WaitAcks => 2
    case Clear => 1
    case Done => 0
  }

  /** The batched program does all puts before its one fence, so it is weighed differently. */
  function BatchWeight(kids: nat, pc: Pc): nat {
    match pc
    case WaitData => 4 * kids + 10
    case SendAck => 4 * kids + 9
    case Put(k) => if k <= kids then 2 * (kids - k) + 2 * kids + 7 else 0
    case Fence(_) => 2 * kids + 6
    case Signal(k) => if k <= kids then 2 * (kids - k) + 5 else 0
    case WaitAcks => 2
    case Clear => 1
    case Done => 0
  }

  ghost function NodeWeight(s: State, p: nat): nat
    requires Shape(s) && p < s.tree.n
  {
    if s.batched then BatchWeight(|s.tree.kids[p]|, s.pc[p]) else Weight(|s.tree.kids[p]|, s.pc[p])
  }

  ghost function Weights(s: State): seq<nat>
    requires Shape(s)
  {
    seq(s.tree.n, p requires 0 <= p < s.tree.n && Shape(s) => NodeWeight(s, p))
  }

  ghost function Remaining(s: State): nat {
    if Shape(s) then Sum(Weights(s)) + |s.flight| else 0
  }

  lemma RunLowersWeight(s: State, p: nat)
    requires Inv(s) && Enabled(s, Run(p))
    ensures var t := Apply(s, Run(p));
            && (forall q :: 0 <= q < s.tree.n && q != p ==> t.pc[q] == s.pc[q])
            && NodeWeight(t, p) + |t.flight| < NodeWeight(s, p) + |s.flight|
  {
    assert NodeOk(s, p);
  }

  lemma StepLowers(s: State, t: State)
    requires Inv(s) && Next(s, t)
    ensures Remaining(t) < Remaining(s)
  {
    var e :| Enabled(s, e) && t == Apply(s, e);
    if e.Deliver? {
      assert Weights(t) == Weights(s);
    } else {
      RunLowers(s, e.p);
    }
  }

  lemma RunLowers(s: State, p: nat)
    requires Inv(s) && Enabled(s, Run(p))
    ensures Remaining(Apply(s, Run(p))) < Remaining(s)
  {
    RunLowersWeight(s, p);
    var t := Apply(s, Run(p));
    assert Weights(t) == Weights(s)[p := NodeWeight(t, p)];
    SumUpdate(Weights(s), p, NodeWeight(t, p));
  }

  /** Every schedule ends after boundedly many steps with every node back from the call and the data everywhere. */
  lemma BroadcastCompletes(run: seq<State>)
    requires IsRun(Initial, Next, run)
    ensures |run| - 1 <= Remaining(run[0])
    ensures var s := run[|run| - 1]; (forall t :: !Next(s, t)) ==>
              AllDone(s) && forall c :: 1 <= c < s.tree.n ==> s.target[c] == s.source
  {
    forall s, t {:trigger Next(s, t)} | Reached(s) && Next(s, t) ensures Reached(t) && Remaining(t) < Remaining(s) {
      ReachedInv(s);
      StepLowers(s, t);
      ReachableStep(Initial, Next, s, t);
    }
    RunIsPath(Initial, Next, run);
    ReachableInit(Initial, Next, run[0]);
    MeasureBoundsPath(Next, Reached, Remaining, run);
    var s := run[|run| - 1];
    if forall t :: !Next(s, t) {
      if !AllDone(s) { NoDeadlock(s); }
      EverybodyHasTheData(s);
    }
  }
}
