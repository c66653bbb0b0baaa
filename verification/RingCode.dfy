/** Posting to the two queues of a storage PE, and taking carriers out of them, statement by statement. */
module RingCode {
  import opened Runs
  import opened Carriers
  import opened Ring

  const QUEUE_LEN := 100

  /** A queue in the storage PE's memory; the tail is the number of tickets, which also say what the
      network still has to deliver.  The ghost `s` is the machine's state, of which this is the memory. */
  class Queue {
    const len: nat
    const copyFirst: bool
    var slot: seq<Carrier>
    var flag: seq<int>
    var head: nat
    var tickets: seq<Ticket>
    ghost var s: State

    ghost predicate IsMemoryOf(t: State)
      reads this
    {
      t.len == len && t.copyFirst == copyFirst && t.slot == slot && t.flag == flag && t.head == head
        && t.tickets == tickets
    }

    ghost predicate Valid()
      reads this
    {
      Shape(s) && Reached(s) && IsMemoryOf(s)
    }

    constructor (copyFirst: bool, producers: nat, garbage: seq<Carrier>)
      requires |garbage| == QUEUE_LEN
      ensures Valid() && Initial(s) && len == QUEUE_LEN && this.copyFirst == copyFirst && |s.pc| == producers
    {
      this.copyFirst := copyFirst;
      len, slot, flag, head, tickets := QUEUE_LEN, garbage, seq(QUEUE_LEN, _ => 0), 0, [];
      s := State(QUEUE_LEN, copyFirst, garbage, seq(QUEUE_LEN, _ => 0), 0, [], seq(producers, _ => Idle), Look, [],
        false);
      new;
      ReachableInit(Initial, Ring.Next, s);
    }

    /** Any number of steps of the others, and deliveries, may happen here. */
    method OthersOfProducer(ghost p: nat)
      requires Valid() && p < |s.pc|
      modifies this
      ensures Valid() && |s.pc| == |old(s.pc)| && s.pc[p] == old(s.pc[p])
      ensures |tickets| >= |old(tickets)|
      ensures forall t :: 0 <= t < |old(tickets)| ==> tickets[t].carrier == old(tickets[t].carrier)
    {
    }

    method OthersOfConsumer()
      requires Valid()
      modifies this
      ensures Valid() && s.consumer == old(s.consumer) && head == old(head) && s.taken == old(s.taken)
      ensures |tickets| >= |old(tickets)|
    {
    }

    /** The access just made was the step e. */
    ghost method Step(e: Event)
      requires Shape(s) && Reached(s) && Enabled(s, e) && IsMemoryOf(Apply(s, e))
      modifies `s
      ensures Valid() && s == Apply(old(s), e)
    {
      assert Ring.Next(s, Apply(s, e));
      ReachableStep(Initial, Ring.Next, s, Apply(s, e));
      s := Apply(s, e);
    }

    /** Producer p posts one carrier: fetch-and-increment of the tail, put, fence, flag. */
    method Post(p: nat, c: Carrier) returns (ghost ticket: nat)
      requires Valid() && p < |s.pc| && s.pc[p] == Idle && c.pe == p
      modifies this
      ensures Valid() && |s.pc| == |old(s.pc)| && s.pc[p] == Idle
      ensures |old(tickets)| == ticket < |tickets| && tickets[ticket].carrier == c
    {
      var t := |tickets|;
      ticket := t;
      tickets := tickets + [Ticket(c, false, false, false, false)];
      Step(Take(p, c));
      OthersOfProducer(p);
      tickets := tickets[t := tickets[t].(putIssued := true)];
      Step(IssuePut(p));
      OthersOfProducer(p);
      tickets := tickets[t := tickets[t].(flagIssued := true)];
      Step(IssueFlag(p));
    }

    /** The storage PE takes carriers out while there are any.  It stops early after `patience` carriers,
        or after that many looks at one flag that is still down. */
    method TakeOut(patience: nat) returns (carriers: seq<Carrier>)
      requires Valid() && s.consumer == Look
      modifies this
      ensures Valid() && s.taken == old(s.taken) + carriers && (s.consumer == Look || s.consumer == WaitFlag)
      ensures if s.consumer == WaitFlag then head < |tickets| && flag[head % len] == 0
              else |carriers| == patience || head >= |tickets|
      ensures !s.overrun ==> 0 <= head <= |tickets| && s.taken == Posted(s)[..head]
    {
      carriers := [];
      var more := head < |tickets|;
      while more && |carriers| < patience
        invariant Valid() && s.taken == old(s.taken) + carriers
        invariant s.consumer == Look || (!more && s.consumer == WaitFlag)
        invariant |carriers| <= patience
        invariant if s.consumer == WaitFlag then head < |tickets| && flag[head % len] == 0
                  else more <==> head < |tickets|
        decreases patience - |carriers|, more
      {
        Step(Consume);
        OthersOfConsumer();
        more := AwaitFlag(patience);
        if more {
          var c;
          if copyFirst { c := TakeReservation(); } else { c := TakeCheck(); }
          carriers := carriers + [c];
          more := head < |tickets|;
        }
      }
      if !s.overrun { TakenInTicketOrder(s); }
    }

    /** The flag of the slot at head is looked at until it is up. */
    method AwaitFlag(patience: nat) returns (seen: bool)
      requires Valid() && s.consumer == WaitFlag
      modifies this
      ensures Valid() && s.consumer == (if seen then Clear else WaitFlag) && s.taken == old(s.taken)
      ensures !seen ==> flag[head % len] == 0 && head == old(head) && |tickets| >= |old(tickets)|
    {
      var looks := 0;
      while flag[head % len] == 0
        invariant Valid() && s.consumer == WaitFlag && s.taken == old(s.taken)
        invariant head == old(head) && |tickets| >= |old(tickets)|
        decreases patience - looks
      {
        if looks >= patience { return false; }
        looks := looks + 1;
        OthersOfConsumer();
      }
      Step(Consume);
      OthersOfConsumer();
      seen := true;
    }

    method ClearFlag()
      requires Valid() && s.consumer == Clear
      modifies this
      ensures Valid() && s.consumer == (if copyFirst then Copy else Advance) && s.taken == old(s.taken)
    {
      flag := flag[head % len := 0];
      Step(Consume);
      OthersOfConsumer();
    }

    method AdvanceHead() returns (at: nat)
      requires Valid() && s.consumer == Advance
      modifies this
      ensures Valid() && s.consumer == (if copyFirst then Look else Copy) && s.taken == old(s.taken)
      ensures head > 0 && at == (head - 1) % len
    {
      at := head % len;
      head := head + 1;
      Step(Consume);
      OthersOfConsumer();
    }

    method CopySlot(at: nat) returns (c: Carrier)
      requires Valid() && s.consumer == Copy && Copied(s) >= 0 && at == Slot(len, Copied(s))
      modifies this
      ensures Valid() && s.consumer == (if copyFirst then Advance else Look) && s.taken == old(s.taken) + [c]
    {
      c := slot[at];
      Step(Consume);
      OthersOfConsumer();
    }

    /** Of a reservation the slot is copied before the head goes on. */
    method TakeReservation() returns (c: Carrier)
      requires Valid() && s.consumer == Clear && copyFirst
      modifies this
      ensures Valid() && s.consumer == Look && s.taken == old(s.taken) + [c]
    {
      ClearFlag();
      c := CopySlot(head % len);
      var at := AdvanceHead();
    }

    /** Of a checkpoint carrier the flag goes down and the head on before the slot is copied. */
    method TakeCheck() returns (c: Carrier)
      requires Valid() && s.consumer == Clear && !copyFirst
      modifies this
      ensures Valid() && s.consumer == Look && s.taken == old(s.taken) + [c]
    {
      ClearFlag();
      var at := AdvanceHead();
      c := CopySlot(at);
    }
  }
}
