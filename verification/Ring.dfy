/** The two queues of a storage PE: rings of slots filled by many producers, each slot guarded by a ready flag.
    The reservation queue is copied from before its head is advanced, the check queue after. */
module Ring {
  import opened Runs
  import opened Bits
  import opened Carriers

  /** One fetch-and-increment of the tail and how far its producer and the network have come with it. */
  datatype Ticket = Ticket(carrier: Carrier, putIssued: bool, putLanded: bool, flagIssued: bool, flagLanded: bool)

  datatype Producer =
    | Idle
    | PutNext(t: nat)     // holds ticket t, about to put its carrier
    | FlagNext(t: nat)    // has put and fenced, about to set the slot's flag

  datatype Consumer =
    | Look        // compares head and tail
    | WaitFlag    // waits for the flag of the slot at head
    | Clear       // about to clear that flag
    | Advance     // about to increment head
    | Copy        // about to copy from the slot at head, or when head has been advanced from the one before

  /** `len` is the ring's length, and `copyFirst` tells the reservation queue from the check queue.  History: all
      tickets ever taken (their number is the tail), the carriers copied out, and whether ever more tickets were
      outstanding than the queue can bear. */
  datatype State = State(
    len: nat,
    copyFirst: bool,
    slot: seq<Carrier>,
    flag: seq<int>,
    head: nat,
    tickets: seq<Ticket>,
    pc: seq<Producer>,
    consumer: Consumer,
    taken: seq<Carrier>,
    overrun: bool)

  datatype Event =
    | Take(p: nat, c: Carrier) | IssuePut(p: nat) | IssueFlag(p: nat) | LandPut(t: nat) | LandFlag(t: nat) | Consume

  function Slot(len: nat, t: nat): nat
    requires len > 0
  {
    t % len
  }

  ghost predicate Shape(s: State) {
    s.len > 0 && |s.slot| == |s.flag| == s.len
  }

  ghost predicate Initial(s: State) {
    && Shape(s) && s.head == 0 && s.tickets == [] && s.consumer == Look && s.taken == [] && !s.overrun
    && (forall i :: 0 <= i < s.len ==> s.flag[i] == 0)
    && (forall p :: 0 <= p < |s.pc| ==> s.pc[p] == Idle)
  }

  ghost predicate Enabled(s: State, e: Event)
    requires Shape(s)
  {
    match e
    case Take(p, c) => p < |s.pc| && s.pc[p] == Idle && c.pe == p
    case IssuePut(p) => p < |s.pc| && s.pc[p].PutNext? && s.pc[p].t < |s.tickets|
    case IssueFlag(p) => p < |s.pc| && s.pc[p].FlagNext? && s.pc[p].t < |s.tickets|
    case LandPut(t) => t < |s.tickets| && s.tickets[t].putIssued && !s.tickets[t].putLanded
    case LandFlag(t) =>
      // the fence: the flag lands only after the carrier it announces
      t < |s.tickets| && s.tickets[t].flagIssued && !s.tickets[t].flagLanded && s.tickets[t].putLanded
    case Consume =>
      match s.consumer
      case Look => s.head < |s.tickets|
      case WaitFlag => s.flag[Slot(s.len, s.head)] != 0
      case Copy => s.copyFirst || s.head > 0
      case _ => true
  }

  /** The tickets that may be outstanding. */
  ghost function Limit(s: State): int { if s.copyFirst then s.len else s.len - 1 }

  /** The ticket that is copied. */
  ghost function Copied(s: State): int { if s.copyFirst then s.head else s.head - 1 }

  ghost function ConsumeStep(s: State): State
    requires Shape(s) && Enabled(s, Consume)
  {
    match s.consumer
    case Look => s.(consumer := WaitFlag)
    case WaitFlag => s.(consumer := Clear)
    case Clear => s.(flag := s.flag[Slot(s.len, s.head) := 0], consumer := if s.copyFirst then Copy else Advance)
    case Advance => s.(head := s.head + 1, consumer := if s.copyFirst then Look else Copy)
    case Copy =>
      s.(taken := s.taken + [s.slot[Slot(s.len, Copied(s))]], consumer := if s.copyFirst then Advance else Look)
  }

  ghost function Apply(s: State, e: Event): (t: State)
    requires Shape(s) && Enabled(s, e)
    ensures Shape(t) && t.len == s.len && t.copyFirst == s.copyFirst && |t.pc| == |s.pc|
  {
    match e
    case Take(p, c) =>
      s.(tickets := s.tickets + [Ticket(c, false, false, false, false)], pc := s.pc[p := PutNext(|s.tickets|)],
         overrun := s.overrun || |s.tickets| + 1 > s.head + Limit(s))
    case IssuePut(p) =>
      var t := s.pc[p].t;
      s.(tickets := s.tickets[t := s.tickets[t].(putIssued := true)], pc := s.pc[p := FlagNext(t)])
    case IssueFlag(p) =>
      var t := s.pc[p].t;
      s.(tickets := s.tickets[t := s.tickets[t].(flagIssued := true)], pc := s.pc[p := Idle])
    case LandPut(t) =>
      s.(slot := s.slot[Slot(s.len, t) := s.tickets[t].carrier],
        tickets := s.tickets[t := s.tickets[t].(putLanded := true)])
    case LandFlag(t) =>
      s.(flag := s.flag[Slot(s.len, t) := 1], tickets := s.tickets[t := s.tickets[t].(flagLanded := true)])
    case Consume => ConsumeStep(s)
  }

  ghost predicate Next(s: State, t: State) {
    Shape(s) && exists e :: Enabled(s, e) && t == Apply(s, e)
  }

  // ------------------------------------------------------------ invariant

  /** The oldest ticket whose slot still matters, and the oldest whose flag does. */
  ghost function Oldest(s: State): int {
    if s.copyFirst then (if s.consumer.Advance? then s.head + 1 else s.head)
    else if s.consumer.Copy? then s.head - 1 else s.head
  }
  ghost function FirstFlag(s: State): nat {
    if s.consumer.Advance? || (s.copyFirst && s.consumer.Copy?) then s.head + 1 else s.head
  }

  ghost predicate TicketOk(s: State, t: int)
    requires Shape(s)
  {
    0 <= t < |s.tickets| ==>
      var k := s.tickets[t];
      && (k.putLanded ==> k.putIssued) && (k.flagIssued ==> k.putIssued)
      && (k.flagLanded ==> k.flagIssued && k.putLanded)
      && (t < FirstFlag(s) ==> k.flagLanded)
      && (t >= Oldest(s) && k.putLanded ==> s.slot[Slot(s.len, t)] == k.carrier)
      && (!k.putIssued ==> k.carrier.pe < |s.pc| && s.pc[k.carrier.pe] == PutNext(t))
      && (k.putIssued && !k.flagIssued ==> k.carrier.pe < |s.pc| && s.pc[k.carrier.pe] == FlagNext(t))
  }

  /** In the window of the next len tickets a slot's flag is up exactly for a ticket whose flag has landed. */
  ghost predicate FlagOk(s: State, t: int)
    requires Shape(s)
  {
    FirstFlag(s) <= t < FirstFlag(s) + s.len ==>
      s.flag[Slot(s.len, t)] == if t < |s.tickets| && s.tickets[t].flagLanded then 1 else 0
  }

  ghost predicate ProducerOk(s: State, p: int) {
    0 <= p < |s.pc| ==>
      match s.pc[p]
      case Idle => true
      case PutNext(t) => t < |s.tickets| && s.tickets[t].carrier.pe == p && !s.tickets[t].putIssued
      case FlagNext(t) =>
        t < |s.tickets| && s.tickets[t].carrier.pe == p && s.tickets[t].putIssued && !s.tickets[t].flagIssued
  }

  ghost function Posted(s: State): (r: seq<Carrier>)
    ensures |r| == |s.tickets|
  {
    seq(|s.tickets|, t requires 0 <= t < |s.tickets| => s.tickets[t].carrier)
  }

  ghost predicate ConsumerOk(s: State)
    requires Shape(s)
  {
    && s.head <= |s.tickets| <= s.head + Limit(s)
    && (s.consumer.WaitFlag? || s.consumer.Clear? || s.consumer.Advance? ==> s.head < |s.tickets|)
    && (s.consumer.Clear? ==> s.tickets[s.head].flagLanded)
    && (s.consumer.Copy? ==> 0 <= Copied(s) < |s.tickets|)
    && s.taken == Posted(s)[..Oldest(s)]
  }

  /** As long as the outstanding tickets were never too many. */
  ghost predicate Inv(s: State) {
    Shape(s) && (s.overrun ||
      (ConsumerOk(s)
       && (forall t {:trigger TicketOk(s, t)} :: TicketOk(s, t))
       && (forall t {:trigger FlagOk(s, t)} :: FlagOk(s, t))
       && (forall p {:trigger ProducerOk(s, p)} :: ProducerOk(s, p))))
  }

  /** Fewer than len consecutive tickets have different slots, and tickets len apart share one. */
  lemma SlotsDiffer(len: nat, t: nat, u: nat)
    requires len > 0
    ensures t < u < t + len ==> Slot(len, t) != Slot(len, u)
    ensures u == t + len ==> Slot(len, t) == Slot(len, u)
  {
    var q, r := t / len, u / len;
    assert t == q * len + Slot(len, t) && u == r * len + Slot(len, u);
    Quotient(t, len, q);
    if u == t + len {
      assert (q + 1) * len == q * len + len;
      Quotient(u, len, q + 1);
    } else if t < u < t + len && Slot(len, t) == Slot(len, u) {
      assert (r - q) * len == u - t;
      NoMultiple(r - q, len);
    }
  }

  lemma NoMultiple(k: int, len: nat)
    ensures k <= 0 || k * len >= len
    ensures k <= 0 ==> k * len <= 0
  {
  }

  /** Within the live window no other ticket uses the slot of ticket k. */
  lemma OtherSlot(s: State, k: nat, u: int)
    requires Inv(s) && !s.overrun && k < |s.tickets| && !s.tickets[k].putLanded
    ensures Oldest(s) <= u < |s.tickets| && u != k ==> Slot(s.len, u) != Slot(s.len, k)
  {
    assert TicketOk(s, k);
    if Oldest(s) <= u < |s.tickets| {
      if u < k { SlotsDiffer(s.len, u, k); } else { SlotsDiffer(s.len, k, u); }
    }
  }

  lemma OtherFlag(len: nat, k: nat, u: nat)
    requires len > 0
    ensures k < u + len && u < k + len && u != k ==> Slot(len, u) != Slot(len, k)
  {
    if u < k { SlotsDiffer(len, u, k); } else { SlotsDiffer(len, k, u); }
  }

  /** While the consumer copies, after having cleared the flag and perhaps advanced head, the slot still holds the
      carrier of the ticket it belongs to. */
  lemma CopyIntact(s: State)
    requires Inv(s) && !s.overrun && s.consumer.Copy?
    ensures 0 <= Copied(s) < |s.tickets| && s.slot[Slot(s.len, Copied(s))] == Posted(s)[Copied(s)]
    ensures Posted(s)[..Copied(s)] + [Posted(s)[Copied(s)]] == Posted(s)[..Copied(s) + 1]
  {
    assert TicketOk(s, Copied(s));
  }

  lemma KeepTake(s: State, p: nat, c: Carrier, t: State)
    requires Inv(s) && !s.overrun && Enabled(s, Take(p, c)) && t == Apply(s, Take(p, c))
    ensures Inv(t)
  {
    if !t.overrun {
      assert Posted(t)[..Oldest(t)] == Posted(s)[..Oldest(s)];
      forall u ensures TicketOk(t, u) {
        assert TicketOk(s, u);
        if 0 <= u < |s.tickets| { assert t.tickets[u] == s.tickets[u]; }
      }
      forall u ensures FlagOk(t, u) { assert FlagOk(s, u); }
      forall q ensures ProducerOk(t, q) { assert ProducerOk(s, q); }
    }
  }

  /** Two producers never hold the same ticket. */
  lemma OwnTicket(s: State, p: nat, q: int)
    requires Inv(s) && !s.overrun && p < |s.pc| && 0 <= q < |s.pc| && q != p && !s.pc[p].Idle? && !s.pc[q].Idle?
    ensures s.pc[p].t != s.pc[q].t
  {
    assert ProducerOk(s, p);
    assert ProducerOk(s, q);
  }

  lemma KeepIssuePut(s: State, p: nat, t: State)
    requires Inv(s) && !s.overrun && Enabled(s, IssuePut(p)) && t == Apply(s, IssuePut(p))
    ensures Inv(t)
  {
    assert ProducerOk(s, p);
    assert TicketOk(s, s.pc[p].t);
    assert Posted(t) == Posted(s);
    forall u ensures TicketOk(t, u) { assert TicketOk(s, u); }
    forall u ensures FlagOk(t, u) { assert FlagOk(s, u); }
    forall q ensures ProducerOk(t, q) {
      assert ProducerOk(s, q);
      if 0 <= q < |s.pc| && q != p && !s.pc[q].Idle? { OwnTicket(s, p, q); }
    }
  }

  lemma KeepIssueFlag(s: State, p: nat, t: State)
    requires Inv(s) && !s.overrun && Enabled(s, IssueFlag(p)) && t == Apply(s, IssueFlag(p))
    ensures Inv(t)
  {
    assert ProducerOk(s, p);
    assert Posted(t) == Posted(s);
    forall u ensures TicketOk(t, u) { assert TicketOk(s, u); }
    forall u ensures FlagOk(t, u) { assert FlagOk(s, u); }
    forall q ensures ProducerOk(t, q) {
      assert ProducerOk(s, q);
      if 0 <= q < |s.pc| && q != p && !s.pc[q].Idle? { OwnTicket(s, p, q); }
    }
  }

  lemma PutTicket(s: State, k: nat, t: State, u: int)
    requires Inv(s) && !s.overrun && Enabled(s, LandPut(k)) && t == Apply(s, LandPut(k))
    ensures TicketOk(t, u)
    ensures s.consumer.Clear? ==> t.tickets[s.head].flagLanded
  {
    assert TicketOk(s, u);
    OtherSlot(s, k, u);
  }

  lemma KeepLandPut(s: State, k: nat, t: State)
    requires Inv(s) && !s.overrun && Enabled(s, LandPut(k)) && t == Apply(s, LandPut(k))
    ensures Inv(t)
  {
    forall u ensures TicketOk(t, u) { PutTicket(s, k, t, u); }
    forall u ensures FlagOk(t, u) { PutFlag(s, k, t, u); }
    forall q ensures ProducerOk(t, q) { PutProducer(s, k, t, q); }
    PutConsumer(s, k, t);
  }

  lemma PutFlag(s: State, k: nat, t: State, u: int)
    requires Inv(s) && !s.overrun && Enabled(s, LandPut(k)) && t == Apply(s, LandPut(k))
    ensures FlagOk(t, u)
  {
    assert FlagOk(s, u);
  }

  lemma PutProducer(s: State, k: nat, t: State, q: int)
    requires Inv(s) && !s.overrun && Enabled(s, LandPut(k)) && t == Apply(s, LandPut(k))
    ensures ProducerOk(t, q)
  {
    assert ProducerOk(s, q);
  }

  lemma PutConsumer(s: State, k: nat, t: State)
    requires Inv(s) && !s.overrun && Enabled(s, LandPut(k)) && t == Apply(s, LandPut(k))
    ensures ConsumerOk(t)
  {
    assert Posted(t) == Posted(s);
  }

  /** The flag that lands is the one of its own ticket and of no other in the window. */
  lemma FlagLands(s: State, k: nat, t: State, u: int)
    requires Inv(s) && !s.overrun && Enabled(s, LandFlag(k)) && t == Apply(s, LandFlag(k))
    ensures FlagOk(t, u)
  {
    assert TicketOk(s, k);
    if FirstFlag(s) <= u < FirstFlag(s) + s.len {
      assert FlagOk(s, u);
      OtherFlag(s.len, k, u);
    }
  }

  lemma FlaggedTicket(s: State, k: nat, t: State, u: int)
    requires Inv(s) && !s.overrun && Enabled(s, LandFlag(k)) && t == Apply(s, LandFlag(k))
    ensures TicketOk(t, u)
    ensures s.consumer.Clear? ==> t.tickets[s.head].flagLanded
  {
    assert TicketOk(s, u);
  }

  lemma KeepLandFlag(s: State, k: nat, t: State)
    requires Inv(s) && !s.overrun && Enabled(s, LandFlag(k)) && t == Apply(s, LandFlag(k))
    ensures Inv(t)
  {
    assert Posted(t) == Posted(s);
    forall u ensures TicketOk(t, u) { FlaggedTicket(s, k, t, u); }
    forall u ensures FlagOk(t, u) { FlagLands(s, k, t, u); }
    forall q ensures ProducerOk(t, q) { assert ProducerOk(s, q); }
    FlaggedTicket(s, k, t, k);
  }

  lemma KeepClear(s: State, t: State)
    requires Inv(s) && !s.overrun && Enabled(s, Consume) && t == Apply(s, Consume) && s.consumer.Clear?
    ensures Inv(t)
  {
    assert Posted(t) == Posted(s);
    SlotsDiffer(s.len, s.head, s.head + s.len);
    forall u ensures TicketOk(t, u) { assert TicketOk(s, u); }
    forall u ensures FlagOk(t, u) { assert FlagOk(s, u); if u >= 0 { OtherFlag(s.len, s.head, u); } }
    forall q ensures ProducerOk(t, q) { assert ProducerOk(s, q); }
  }

  lemma KeepConsume(s: State, t: State)
    requires Inv(s) && !s.overrun && Enabled(s, Consume) && t == Apply(s, Consume) && !s.consumer.Clear?
    ensures Inv(t)
  {
    assert FlagOk(s, s.head);
    if s.consumer.Copy? { CopyIntact(s); }
    assert Posted(t) == Posted(s);
    forall u ensures TicketOk(t, u) { assert TicketOk(s, u); }
    forall u ensures FlagOk(t, u) { assert FlagOk(s, u); }
    forall q ensures ProducerOk(t, q) { assert ProducerOk(s, q); }
  }

  lemma StepKeepsInv(s: State, t: State)
    requires Inv(s) && Next(s, t)
    ensures Inv(t)
  {
    var e :| Enabled(s, e) && t == Apply(s, e);
    if !s.overrun {
      match e
      case Take(p, c) => KeepTake(s, p, c, t);
      case IssuePut(p) => KeepIssuePut(s, p, t);
      case IssueFlag(p) => KeepIssueFlag(s, p, t);
      case LandPut(k) => KeepLandPut(s, k, t);
      case LandFlag(k) => KeepLandFlag(s, k, t);
      case Consume => if s.consumer.Clear? { KeepClear(s, t); } else { KeepConsume(s, t); }
    }
  }

  ghost predicate Reached(s: State) {
    Reachable(Initial, Next, s)
  }

  lemma ReachedInv(s: State)
    requires Reached(s)
    ensures Inv(s)
  {
    forall i | Initial(i) ensures Inv(i) {
      assert Posted(i) == [];
    }
    forall t, u | Inv(t) && Next(t, u) ensures Inv(u) { StepKeepsInv(t, u); }
    ReachableInvariant(Initial, Next, Inv, s);
  }

  // ------------------------------------------------------------ what the storage PE gets

  /** As long as no more tickets were outstanding than the queue can bear, the storage PE takes exactly the posted
      carriers: each once, intact, in ticket order. */
  lemma TakenInTicketOrder(s: State)
    requires Reached(s) && !s.overrun
    ensures Shape(s) && 0 <= Oldest(s) <= |s.tickets|
    ensures s.taken == Posted(s)[..Oldest(s)]
    ensures s.head == |s.tickets| && s.consumer.Look? ==> s.taken == Posted(s)
  {
    ReachedInv(s);
    assert Posted(s)[..|s.tickets|] == Posted(s);
  }

  /** So what it has from one producer is a prefix of what that producer posted. */
  lemma TakenInProducerOrder(s: State, p: nat)
    requires Reached(s) && !s.overrun
    ensures From(s.taken, p) <= From(Posted(s), p)
    ensures s.head == |s.tickets| && s.consumer.Look? ==> From(s.taken, p) == From(Posted(s), p)
  {
    TakenInTicketOrder(s);
    FromPrefix(Posted(s), Oldest(s), p);
  }

  // ------------------------------------------------------------ progress

  /** A step of a producer that has a ticket, of the network, or of the storage PE: anything but a new ticket. */
  ghost predicate Drains(s: State, t: State) {
    Shape(s) && exists e :: Enabled(s, e) && !e.Take? && t == Apply(s, e)
  }

  /** As long as a posted ticket is not taken out, somebody can go on. */
  lemma NoDeadlock(s: State) returns (e: Event)
    requires Reached(s) && !s.overrun && !(s.head == |s.tickets| && s.consumer.Look?)
    ensures Shape(s) && !e.Take? && Enabled(s, e)
  {
    ReachedInv(s);
    e := Moves(s);
  }

  lemma Moves(s: State) returns (e: Event)
    requires Inv(s) && !s.overrun && !(s.head == |s.tickets| && s.consumer.Look?)
    ensures !e.Take? && Enabled(s, e)
  {
    e := Consume;
    if s.consumer.WaitFlag? && s.flag[Slot(s.len, s.head)] == 0 {
      assert TicketOk(s, s.head) && FlagOk(s, s.head);
      var k := s.tickets[s.head];
      e := if !k.putIssued then IssuePut(k.carrier.pe)
           else if !k.putLanded then LandPut(s.head)
           else if !k.flagIssued then IssueFlag(k.carrier.pe)
           else LandFlag(s.head);
    }
  }

  ghost function Steps(k: Ticket): nat {
    (if k.putIssued then 0 else 1) + (if k.putLanded then 0 else 1)
    + (if k.flagIssued then 0 else 1) + (if k.flagLanded then 0 else 1)
  }

  ghost function AllSteps(s: State): (r: seq<nat>)
    ensures |r| == |s.tickets|
  {
    seq(|s.tickets|, t requires 0 <= t < |s.tickets| => Steps(s.tickets[t]))
  }

  ghost function Stage(s: State): int {
    match s.consumer
    case Look => 0
    case WaitFlag => 1
    case Clear => 2
    case Advance => if s.copyFirst then -1 else 3
    case Copy => if s.copyFirst then 3 else 4
  }

  /** What is left to do until the ring is drained. */
  ghost function Remaining(s: State): nat {
    var r := Sum(AllSteps(s)) + 5 * (|s.tickets| - Oldest(s)) - Stage(s);
    if r < 0 then 0 else r
  }

  lemma TicketDown(s: State, t: State, k: nat)
    requires k < |s.tickets| == |t.tickets| && t.head == s.head && t.consumer == s.consumer
             && t.copyFirst == s.copyFirst
    requires t.tickets == s.tickets[k := t.tickets[k]] && Steps(t.tickets[k]) < Steps(s.tickets[k])
    requires 5 * (|s.tickets| - Oldest(s)) >= Stage(s)
    ensures Remaining(t) < Remaining(s)
  {
    assert AllSteps(t) == AllSteps(s)[k := Steps(t.tickets[k])];
    SumUpdate(AllSteps(s), k, Steps(t.tickets[k]));
  }

  lemma ConsumeLowers(s: State, t: State)
    requires Inv(s) && !s.overrun && Enabled(s, Consume) && t == Apply(s, Consume)
    ensures Remaining(t) < Remaining(s)
  {
    assert AllSteps(t) == AllSteps(s);
  }

  lemma ProducerLowers(s: State, e: Event, t: State)
    requires Inv(s) && !s.overrun && Enabled(s, e) && t == Apply(s, e) && !e.Take? && !e.Consume?
    ensures Remaining(t) < Remaining(s)
  {
    match e
    case IssuePut(p) => assert ProducerOk(s, p); TicketDown(s, t, s.pc[p].t);
    case IssueFlag(p) => assert ProducerOk(s, p); TicketDown(s, t, s.pc[p].t);
    case LandPut(k) => TicketDown(s, t, k);
    case LandFlag(k) => TicketDown(s, t, k);
  }

  ghost predicate Draining(s: State, posted: seq<Carrier>) {
    Inv(s) && !s.overrun && Posted(s) == posted
  }

  lemma DrainLowers(s: State, t: State, posted: seq<Carrier>)
    requires Draining(s, posted) && Drains(s, t)
    ensures Draining(t, posted) && Remaining(t) < Remaining(s)
  {
    assert Next(s, t);
    StepKeepsInv(s, t);
    var e :| Enabled(s, e) && !e.Take? && t == Apply(s, e);
    assert Posted(t) == Posted(s);
    if e.Consume? { ConsumeLowers(s, t); } else { ProducerLowers(s, e, t); }
  }

  lemma StopsDrained(s: State)
    requires Inv(s) && !s.overrun && forall t :: !Drains(s, t)
    ensures s.head == |s.tickets| && s.consumer == Look && s.taken == Posted(s)
  {
    if !(s.head == |s.tickets| && s.consumer.Look?) {
      var e := Moves(s);
      assert Drains(s, Apply(s, e));
    }
  }

  /** Once no new tickets are taken the ring is drained after at most Remaining steps, whatever their order: no
      longer run exists, and where no step is left everything posted has been taken and the consumer looks again. */
  lemma DrainsInTime(path: seq<State>)
    requires IsPath(Drains, path) && Reached(path[0]) && !path[0].overrun
    ensures |path| - 1 <= Remaining(path[0])
    ensures var s := path[|path| - 1];
            && Posted(s) == Posted(path[0])
            && ((forall t :: !Drains(s, t)) ==>
                 s.head == |s.tickets| && s.consumer == Look && s.taken == Posted(path[0]))
  {
    ReachedInv(path[0]);
    var inv := (s: State) => Draining(s, Posted(path[0]));
    forall s, t | inv(s) && Drains(s, t) ensures inv(t) && Remaining(t) < Remaining(s) {
      DrainLowers(s, t, Posted(path[0]));
    }
    MeasureBoundsPath(Drains, inv, Remaining, path);
    var s := path[|path| - 1];
    if forall t :: !Drains(s, t) { StopsDrained(s); }
  }

  // ------------------------------------------------------------ the bound is exact

  lemma Then(s: State, e: Event) returns (t: State)
    requires Reached(s) && Shape(s) && Enabled(s, e)
    ensures Reached(t) && t == Apply(s, e)
  {
    t := Apply(s, e);
    assert Next(s, t);
    ReachableStep(Initial, Next, s, t);
  }

  /** One more ticket than the limit allows, put while the consumer has cleared the flag but not yet copied, overwrites
      the slot being copied: the storage PE takes the new carrier in place of the old one. */
  lemma OneMoreTicketCorrupts(s: State, p: nat, c: Carrier) returns (t: State)
    requires Reached(s) && !s.overrun && s.consumer.Copy? && |s.tickets| == s.head + Limit(s)
    requires p < |s.pc| && s.pc[p].Idle? && c.pe == p
    ensures Reached(t) && t.len == s.len && t.copyFirst == s.copyFirst && t.head == s.head
    ensures |t.tickets| - t.head == Limit(s) + 1 && 0 <= Copied(s) < |s.tickets|
    ensures |t.taken| == Copied(s) + 1 && t.taken[Copied(s)] == c && Posted(t)[Copied(s)] == Posted(s)[Copied(s)]
  {
    ReachedInv(s);
    var k := |s.tickets|;
    t := Then(s, Take(p, c));
    t := Then(t, IssuePut(p));
    t := Then(t, LandPut(k));
    SlotsDiffer(s.len, Copied(s), k);
    t := Then(t, Consume);
  }

  /** One producer posts a ticket whose put and flag are still under way. */
  lemma PostOne(s: State, c: Carrier) returns (t: State)
    requires Reached(s) && Shape(s) && |s.pc| > 0 && s.pc[0].Idle? && c.pe == 0
    requires !s.overrun && |s.tickets| < s.head + Limit(s)
    ensures Reached(t) && Shape(t) && !t.overrun && t.len == s.len && t.copyFirst == s.copyFirst && t.pc == s.pc
    ensures |t.tickets| == |s.tickets| + 1 && t.head == s.head && t.consumer == s.consumer
    ensures t.tickets[..|s.tickets|] == s.tickets && t.tickets[|s.tickets|] == Ticket(c, true, false, true, false)
    ensures t.flag == s.flag && t.slot == s.slot
  {
    t := Then(s, Take(0, c));
    t := Then(t, IssuePut(0));
    t := Then(t, IssueFlag(0));
    assert t.pc == s.pc;
  }

  lemma {:induction false} FillUp(s: State, c: Carrier) returns (t: State)
    requires Reached(s) && Shape(s) && |s.pc| > 0 && s.pc[0].Idle? && c.pe == 0
    requires !s.overrun && |s.tickets| <= s.head + Limit(s)
    ensures Reached(t) && Shape(t) && !t.overrun && t.len == s.len && t.copyFirst == s.copyFirst && t.pc == s.pc
    ensures |t.tickets| == s.head + Limit(s) && t.head == s.head && t.consumer == s.consumer
    ensures |t.tickets| >= |s.tickets| && t.tickets[..|s.tickets|] == s.tickets
    decreases s.head + Limit(s) - |s.tickets|
  {
    t := s;
    if |s.tickets| < s.head + Limit(s) {
      var u := PostOne(s, c);
      t := FillUp(u, c);
      assert t.tickets[..|s.tickets|] == t.tickets[..|u.tickets|][..|s.tickets|];
    }
  }

  /** One posted ticket, and the consumer about to copy it. */
  lemma UpToCopy(s: State, c: Carrier) returns (t: State)
    requires Initial(s) && Limit(s) >= 1 && |s.pc| > 0 && c.pe == 0
    ensures Reached(t) && Shape(t) && !t.overrun && t.len == s.len && t.copyFirst == s.copyFirst && t.pc == s.pc
    ensures t.consumer.Copy? && t.head == (if s.copyFirst then 0 else 1) && |t.tickets| == 1
            && t.tickets[0].carrier == c
  {
    ReachableInit(Initial, Next, s);
    t := PostOne(s, c);
    t := Then(t, LandPut(0));
    t := Then(t, LandFlag(0));
    t := Then(t, Consume);
    Quotient(0, s.len, 0);
    t := Then(t, Consume);
    t := Then(t, Consume);
    if !s.copyFirst { t := Then(t, Consume); }
  }

  /** For every ring that can hold a ticket the limit cannot be raised by one: there is a run that reaches one more
      outstanding ticket and then takes out a carrier other than the one posted in its place. */
  lemma LimitIsTight(s: State) returns (t: State)
    requires Initial(s) && Limit(s) >= 1 && |s.pc| > 0
    ensures Reached(t) && t.len == s.len && t.copyFirst == s.copyFirst && |t.tickets| - t.head == Limit(s) + 1
    ensures |t.taken| == 1 && |Posted(t)| > 0 && Posted(t)[0] != t.taken[0]
  {
    var first, other := Check(0, 0, 1, 0, [1]), Check(0, 0, 1, 0, [2]);
    t := UpToCopy(s, first);
    var u := FillUp(t, first);
    assert u.tickets[0] == u.tickets[..1][0];
    t := OneMoreTicketCorrupts(u, 0, other);
  }
}
