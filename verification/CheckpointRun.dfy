/** Checkpointing as it runs: active PEs make their calls and post the carriers of a call one after the other to a
    queue of a storage PE, reservations to one and checkpoints to the other, and the storage PE takes them in as they
    come out of its queues. */
module CheckpointRun {
  import opened Runs
  import opened Carriers
  import opened Checkpoint
  import R = Ring

  /** `todo[p]` are the carriers PE p has still to post, `log` what the storage PE has taken in.
      History: each PE's calls, and all carriers these send to this storage PE. */
  datatype State = State(
    reserves: R.State,
    checks: R.State,
    calls: seq<seq<Call>>,
    sent: seq<seq<Carrier>>,
    todo: seq<seq<Carrier>>,
    log: seq<Carrier>)

  /** A call of PE p with its carriers, the next ticket of p for one of them, and any other step of the reservation
      queue (`r`) or the check queue. */
  datatype Event = Ask(p: nat, call: Call, carriers: seq<Carrier>) | Post(p: nat) | InQueue(r: bool, e: R.Event)

  ghost function Queue(s: State, r: bool): R.State { if r then s.reserves else s.checks }

  ghost function WithQueue(s: State, r: bool, q: R.State): State {
    if r then s.(reserves := q) else s.(checks := q)
  }

  ghost predicate Shape(s: State) {
    && R.Shape(s.reserves) && R.Shape(s.checks) && s.reserves.copyFirst && !s.checks.copyFirst
    && |s.calls| == |s.sent| == |s.todo| == |s.reserves.pc| == |s.checks.pc|
  }

  ghost predicate Initial(s: State) {
    && Shape(s) && R.Initial(s.reserves) && R.Initial(s.checks) && s.log == []
    && forall p :: 0 <= p < |s.calls| ==> s.calls[p] == [] && s.sent[p] == [] && s.todo[p] == []
  }

  /** Too many tickets were outstanding in one of the queues. */
  ghost predicate Overrun(s: State) { s.reserves.overrun || s.checks.overrun }

  /** The carriers that have a ticket and are not taken out yet. */
  ghost function Waiting(q: R.State): seq<Carrier> {
    if 0 <= R.Oldest(q) <= |q.tickets| then R.Posted(q)[R.Oldest(q)..] else []
  }

  /** A PE's reservations are taken in before its next checkpoint, and its checkpoints before its next reservation:
      a barrier separates the two kinds of calls. */
  ghost predicate Enabled(s: State, e: Event)
    requires Shape(s)
  {
    match e
    case Ask(p, call, carriers) =>
      && p < |s.calls| && s.todo[p] == [] && CallFits(call, Parts(s.calls[p]))
      && Posts(call, Parts(s.calls[p]), p, carriers)
      && From(Waiting(Queue(s, call.Checking?)), p) == []
    case Post(p) =>
      p < |s.calls| && s.todo[p] != [] && R.Enabled(Queue(s, s.todo[p][0].Reserve?), R.Take(p, s.todo[p][0]))
    case InQueue(r, q) => !q.Take? && R.Enabled(Queue(s, r), q)
  }

  ghost function Apply(s: State, e: Event): (t: State)
    requires Shape(s) && Enabled(s, e)
    ensures Shape(t) && |t.calls| == |s.calls|
  {
    match e
    case Ask(p, call, carriers) =>
      s.(calls := s.calls[p := s.calls[p] + [call]], sent := s.sent[p := s.sent[p] + carriers],
         todo := s.todo[p := carriers])
    case Post(p) => Posting(s, p, s.todo[p][0].Reserve?)
    case InQueue(r, q) =>
      WithQueue(s, r, R.Apply(Queue(s, r), q)).(log := s.log + TakenOut(Queue(s, r), q))
  }

  ghost function Posting(s: State, p: nat, r: bool): (t: State)
    requires Shape(s) && p < |s.calls| && s.todo[p] != [] && R.Enabled(Queue(s, r), R.Take(p, s.todo[p][0]))
    ensures Shape(t) && |t.calls| == |s.calls|
  {
    WithQueue(s, r, R.Apply(Queue(s, r), R.Take(p, s.todo[p][0]))).(todo := s.todo[p := s.todo[p][1..]])
  }

  /** The carrier that a step of a queue hands to the storage PE, if it does. */
  ghost function TakenOut(q: R.State, e: R.Event): (l: seq<Carrier>)
    requires R.Shape(q) && R.Enabled(q, e)
  {
    if e.Consume? && q.consumer.Copy? then [q.slot[R.Slot(q.len, R.Copied(q))]] else []
  }

  ghost predicate Next(s: State, t: State) {
    Shape(s) && exists e :: Enabled(s, e) && t == Apply(s, e)
  }

  ghost predicate Reached(s: State) { Reachable(Initial, Next, s) }

  // ------------------------------------------------------------ one queue

  lemma QueueStays(q: R.State, e: R.Event)
    requires R.Reached(q) && R.Shape(q) && R.Enabled(q, e)
    ensures R.Reached(R.Apply(q, e)) && (q.overrun ==> R.Apply(q, e).overrun)
  {
    assert R.Next(q, R.Apply(q, e));
    ReachableStep(R.Initial, R.Next, q, R.Apply(q, e));
  }

  /** A new ticket waits behind all others. */
  lemma WaitsToo(q: R.State, p: nat, c: Carrier)
    requires R.Reached(q) && R.Shape(q) && R.Enabled(q, R.Take(p, c))
    ensures var t := R.Apply(q, R.Take(p, c));
            && R.Posted(t) == R.Posted(q) + [c] && (!t.overrun ==> Waiting(t) == Waiting(q) + [c])
  {
    var t := R.Apply(q, R.Take(p, c));
    assert R.Posted(t) == R.Posted(q) + [c];
    if !t.overrun {
      R.TakenInTicketOrder(q);
      assert R.Oldest(t) == R.Oldest(q) && |t.tickets| == |q.tickets| + 1;
      BackGrows(R.Posted(q), R.Oldest(q), c);
    }
  }

  lemma BackGrows(l: seq<Carrier>, k: nat, c: Carrier)
    requires k <= |l|
    ensures (l + [c])[k..] == l[k..] + [c]
  {
  }

  lemma PostedStays(q: R.State, e: R.Event)
    requires R.Shape(q) && R.Enabled(q, e) && !e.Take?
    ensures R.Posted(R.Apply(q, e)) == R.Posted(q)
  {
  }

  /** Any other step keeps what waits, but for the carrier that is taken out, which is the first. */
  lemma WaitsOn(q: R.State, e: R.Event)
    requires R.Reached(q) && R.Shape(q) && R.Enabled(q, e) && !e.Take? && !q.overrun
    ensures var t := R.Apply(q, e); !t.overrun && Waiting(q) == TakenOut(q, e) + Waiting(t)
  {
    var t := R.Apply(q, e);
    QueueStays(q, e);
    PostedStays(q, e);
    R.TakenInTicketOrder(q);
    R.TakenInTicketOrder(t);
    if e.Consume? && q.consumer.Copy? {
      FrontTaken(R.Posted(q), R.Oldest(q), q.slot[R.Slot(q.len, R.Copied(q))]);
    } else {
      assert R.Oldest(t) == R.Oldest(q) && TakenOut(q, e) == [];
      assert [] + Waiting(t) == Waiting(t);
    }
  }

  lemma FrontTaken(l: seq<Carrier>, k: nat, c: Carrier)
    requires k < |l| && l[..k + 1] == l[..k] + [c]
    ensures l[k..] == [c] + l[k + 1..]
  {
    assert l[k] == l[..k + 1][k];
  }

  // ------------------------------------------------------------ invariant

  ghost predicate Whose(l: seq<Carrier>, p: nat) {
    forall k :: 0 <= k < |l| ==> l[k].pe == p
  }

  ghost predicate OfKind(l: seq<Carrier>, r: bool) {
    forall k :: 0 <= k < |l| ==> l[k].Reserve? == r
  }

  ghost predicate KnownPes(l: seq<Carrier>, n: nat) {
    forall k :: 0 <= k < |l| ==> l[k].pe < n
  }

  /** What PE p sent is taken in, waiting in a queue or still to be posted, in this order; what is not taken in yet
      is of one kind. */
  ghost predicate InSequence(log: seq<Carrier>, reserves: seq<Carrier>, checks: seq<Carrier>, todo: seq<Carrier>,
                             sent: seq<Carrier>, p: nat) {
    && From(log, p) + From(reserves, p) + From(checks, p) + todo == sent
    && ((OfKind(todo, true) && From(checks, p) == []) || (OfKind(todo, false) && From(reserves, p) == []))
  }

  ghost predicate PeOk(s: State, p: int)
    requires Shape(s)
  {
    0 <= p < |s.calls| ==>
      && CallsFit(s.calls[p]) && AllPosted(s.calls[p], p, s.sent[p]) && Whose(s.todo[p], p)
      && (!Overrun(s) ==> InSequence(s.log, Waiting(s.reserves), Waiting(s.checks), s.todo[p], s.sent[p], p))
  }

  ghost predicate QueueOk(q: R.State, r: bool, n: nat) {
    R.Reached(q) && KnownPes(R.Posted(q), n) && OfKind(R.Posted(q), r)
  }

  ghost predicate Inv(s: State) {
    && Shape(s) && QueueOk(s.reserves, true, |s.calls|) && QueueOk(s.checks, false, |s.calls|)
    && (forall p {:trigger PeOk(s, p)} :: PeOk(s, p))
    && (!Overrun(s) ==> KnownPes(s.log, |s.calls|))
  }

  lemma InitialQueue(q: R.State, r: bool, n: nat)
    requires R.Initial(q)
    ensures QueueOk(q, r, n) && Waiting(q) == []
  {
    ReachableInit(R.Initial, R.Next, q);
  }

  lemma InitialInv(s: State)
    requires Initial(s)
    ensures Inv(s)
  {
    InitialQueue(s.reserves, true, |s.calls|);
    InitialQueue(s.checks, false, |s.calls|);
    forall p ensures PeOk(s, p) { InitialPe(s, p); }
  }

  lemma InitialPe(s: State, p: int)
    requires Initial(s) && Waiting(s.reserves) == Waiting(s.checks) == []
    ensures PeOk(s, p)
  {
    if 0 <= p < |s.calls| { NothingYet(s.log, s.todo[p], s.sent[p], p); }
  }

  lemma NothingYet(log: seq<Carrier>, todo: seq<Carrier>, sent: seq<Carrier>, p: nat)
    requires log == todo == sent == []
    ensures InSequence(log, [], [], todo, sent, p)
  {
  }

  lemma FromWhose(l: seq<Carrier>, p: nat, q: nat)
    requires Whose(l, p)
    ensures From(l, q) == if q == p then l else []
  {
    if l != [] { FromWhose(l[..|l| - 1], p, q); }
  }

  lemma PostsWhose(call: Call, parts: seq<Part>, p: nat, carriers: seq<Carrier>)
    requires Posts(call, parts, p, carriers)
    ensures Whose(carriers, p) && OfKind(carriers, call.Reserving?)
  {
    if call.Checking? {
      forall k | 0 <= k < |carriers| ensures carriers[k].pe == p && carriers[k].Check? {
        assert Carries(carriers[k], p, call.id, call.mem, k);
      }
    }
  }

  // ------------------------------------------------------------ a call

  lemma Asked(log: seq<Carrier>, reserves: seq<Carrier>, checks: seq<Carrier>, sent: seq<Carrier>,
              carriers: seq<Carrier>, p: nat, r: bool)
    requires InSequence(log, reserves, checks, [], sent, p) && OfKind(carriers, r)
    requires From(if r then checks else reserves, p) == []
    ensures InSequence(log, reserves, checks, carriers, sent + carriers, p)
  {
  }

  lemma AskedCalls(s: State, p: nat, call: Call, carriers: seq<Carrier>)
    requires Inv(s) && Enabled(s, Ask(p, call, carriers))
    ensures CallsFit(s.calls[p] + [call]) && AllPosted(s.calls[p] + [call], p, s.sent[p] + carriers)
  {
    assert PeOk(s, p);
    PostMore(s.calls[p], p, s.sent[p], call, carriers);
    assert (s.calls[p] + [call])[..|s.calls[p]|] == s.calls[p];
  }

  lemma AskPe(s: State, p: nat, call: Call, carriers: seq<Carrier>, q: int)
    requires Inv(s) && Enabled(s, Ask(p, call, carriers))
    ensures PeOk(Apply(s, Ask(p, call, carriers)), q)
  {
    assert PeOk(s, q);
    if q == p {
      AskedCalls(s, p, call, carriers);
      PostsWhose(call, Parts(s.calls[p]), p, carriers);
      if !Overrun(s) { Asked(s.log, Waiting(s.reserves), Waiting(s.checks), s.sent[p], carriers, p, call.Reserving?); }
    }
  }

  lemma KeepAsk(s: State, p: nat, call: Call, carriers: seq<Carrier>)
    requires Inv(s) && Enabled(s, Ask(p, call, carriers))
    ensures Inv(Apply(s, Ask(p, call, carriers)))
  {
    var t := Apply(s, Ask(p, call, carriers));
    forall q ensures PeOk(t, q) { AskPe(s, p, call, carriers, q); }
  }

  // ------------------------------------------------------------ a new ticket

  lemma PostedReserve(log: seq<Carrier>, reserves: seq<Carrier>, checks: seq<Carrier>, todo: seq<Carrier>,
                      sent: seq<Carrier>, p: nat)
    requires InSequence(log, reserves, checks, todo, sent, p) && todo != [] && todo[0].pe == p && todo[0].Reserve?
    ensures InSequence(log, reserves + [todo[0]], checks, todo[1..], sent, p)
  {
    FromPhases(reserves, [todo[0]], p);
    FromWhose([todo[0]], p, p);
    assert todo == [todo[0]] + todo[1..];
  }

  lemma PostedCheck(log: seq<Carrier>, reserves: seq<Carrier>, checks: seq<Carrier>, todo: seq<Carrier>,
                    sent: seq<Carrier>, p: nat)
    requires InSequence(log, reserves, checks, todo, sent, p) && todo != [] && todo[0].pe == p && !todo[0].Reserve?
    ensures InSequence(log, reserves, checks + [todo[0]], todo[1..], sent, p)
  {
    FromPhases(checks, [todo[0]], p);
    FromWhose([todo[0]], p, p);
    assert From(reserves, p) == [];
    InOrder(From(log, p), From(checks, p), [todo[0]], todo[1..]);
    assert todo == [todo[0]] + todo[1..];
  }

  lemma OthersTicket(waiting: seq<Carrier>, c: Carrier, q: nat)
    requires q != c.pe
    ensures From(waiting + [c], q) == From(waiting, q) && From([c] + waiting, q) == From(waiting, q)
  {
    FromPhases(waiting, [c], q);
    FromPhases([c], waiting, q);
    FromWhose([c], c.pe, q);
  }

  lemma PostPe(s: State, p: nat, q: int)
    requires Inv(s) && Enabled(s, Post(p))
    ensures PeOk(Apply(s, Post(p)), q)
  {
    var t, c := Apply(s, Post(p)), s.todo[p][0];
    QueueStays(Queue(s, c.Reserve?), R.Take(p, c));
    WaitsToo(Queue(s, c.Reserve?), p, c);
    assert PeOk(s, q) && PeOk(s, p);
    if Overrun(t) || !(0 <= q < |s.calls|) {
    } else if q != p {
      OthersTicket(Waiting(Queue(s, c.Reserve?)), c, q);
    } else if c.Reserve? {
      PostedReserve(s.log, Waiting(s.reserves), Waiting(s.checks), s.todo[p], s.sent[p], p);
    } else {
      PostedCheck(s.log, Waiting(s.reserves), Waiting(s.checks), s.todo[p], s.sent[p], p);
    }
  }

  lemma PostQueue(q: R.State, r: bool, n: nat, p: nat, c: Carrier)
    requires QueueOk(q, r, n) && R.Shape(q) && R.Enabled(q, R.Take(p, c)) && c.pe < n && c.Reserve? == r
    ensures QueueOk(R.Apply(q, R.Take(p, c)), r, n)
  {
    QueueStays(q, R.Take(p, c));
    WaitsToo(q, p, c);
  }

  lemma KeepPost(s: State, p: nat)
    requires Inv(s) && Enabled(s, Post(p))
    ensures Inv(Apply(s, Post(p)))
  {
    var t, c := Apply(s, Post(p)), s.todo[p][0];
    PostQueue(Queue(s, c.Reserve?), c.Reserve?, |s.calls|, p, c);
    QueueStays(Queue(s, c.Reserve?), R.Take(p, c));
    forall q ensures PeOk(t, q) { PostPe(s, p, q); }
  }

  // ------------------------------------------------------------ other steps of a queue

  lemma TookReserve(log: seq<Carrier>, c: Carrier, rest: seq<Carrier>, checks: seq<Carrier>, todo: seq<Carrier>,
                    sent: seq<Carrier>, p: nat)
    requires InSequence(log, [c] + rest, checks, todo, sent, p)
    ensures InSequence(log + [c], rest, checks, todo, sent, p)
  {
    FromPhases(log, [c], p);
    FromPhases([c], rest, p);
    assert From(log, p) + (From([c], p) + From(rest, p)) == From(log, p) + From([c], p) + From(rest, p);
  }

  lemma TookCheck(log: seq<Carrier>, c: Carrier, reserves: seq<Carrier>, rest: seq<Carrier>, todo: seq<Carrier>,
                  sent: seq<Carrier>, p: nat)
    requires InSequence(log, reserves, [c] + rest, todo, sent, p)
    ensures InSequence(log + [c], reserves, rest, todo, sent, p)
  {
    if c.pe == p {
      FromPhases(log, [c], p);
      FromPhases([c], rest, p);
      FromWhose([c], p, p);
      assert From(reserves, p) == [];
      InOrder(From(log, p), From([c], p), From(rest, p), todo);
    } else {
      OthersTicket(log, c, p);
      OthersTicket(rest, c, p);
    }
  }

  lemma InOrder(a: seq<Carrier>, b: seq<Carrier>, c: seq<Carrier>, d: seq<Carrier>)
    ensures a + [] + (b + c) + d == a + b + [] + c + d && a + [] + b + (c + d) == a + [] + (b + c) + d
  {
  }

  lemma InQueuePe(s: State, r: bool, e: R.Event, q: int)
    requires Inv(s) && Enabled(s, InQueue(r, e))
    ensures PeOk(Apply(s, InQueue(r, e)), q)
  {
    var t := Apply(s, InQueue(r, e));
    QueueStays(Queue(s, r), e);
    assert PeOk(s, q);
    if !Overrun(t) {
      WaitsOn(Queue(s, r), e);
      var l := TakenOut(Queue(s, r), e);
      if !(0 <= q < |s.calls|) {
      } else if l == [] {
        assert s.log + l == s.log && l + Waiting(Queue(t, r)) == Waiting(Queue(t, r));
      } else if r {
        TookReserve(s.log, l[0], Waiting(t.reserves), Waiting(s.checks), s.todo[q], s.sent[q], q);
      } else {
        TookCheck(s.log, l[0], Waiting(s.reserves), Waiting(t.checks), s.todo[q], s.sent[q], q);
      }
    }
  }

  lemma KeepInQueue(s: State, r: bool, e: R.Event)
    requires Inv(s) && Enabled(s, InQueue(r, e))
    ensures Inv(Apply(s, InQueue(r, e)))
  {
    var t := Apply(s, InQueue(r, e));
    QueueStays(Queue(s, r), e);
    PostedStays(Queue(s, r), e);
    if !Overrun(s) { LogKnown(s, r, e); }
    forall q ensures PeOk(t, q) { InQueuePe(s, r, e, q); }
  }

  lemma LogKnown(s: State, r: bool, e: R.Event)
    requires Inv(s) && !Overrun(s) && Enabled(s, InQueue(r, e))
    ensures KnownPes(Apply(s, InQueue(r, e)).log, |s.calls|)
  {
    QueueKnown(Queue(s, r), r, |s.calls|, e);
  }

  lemma QueueKnown(q: R.State, r: bool, n: nat, e: R.Event)
    requires QueueOk(q, r, n) && R.Shape(q) && R.Enabled(q, e) && !e.Take? && !q.overrun
    ensures KnownPes(TakenOut(q, e), n)
  {
    WaitsOn(q, e);
    assert KnownPes(Waiting(q), n);
    if e.Consume? && q.consumer.Copy? { assert Waiting(q)[0].pe < n; }
  }

  lemma StepKeepsInv(s: State, t: State)
    requires Inv(s) && Next(s, t)
    ensures Inv(t)
  {
    var e :| Enabled(s, e) && t == Apply(s, e);
    match e
    case Ask(p, call, carriers) => KeepAsk(s, p, call, carriers);
    case Post(p) => KeepPost(s, p);
    case InQueue(r, q) => KeepInQueue(s, r, q);
  }

  lemma ReachedInv(s: State)
    requires Reached(s)
    ensures Inv(s)
  {
    forall t | Initial(t) ensures Inv(t) { InitialInv(t); }
    forall t, u | Inv(t) && Next(t, u) ensures Inv(u) { StepKeepsInv(t, u); }
    ReachableInvariant(Initial, Next, Inv, s);
  }

  // ------------------------------------------------------------ what the storage PE has

  /** As long as the queues were not overrun the storage PE can store each carrier as it comes out, and has
      from every PE the first part of what it sent. */
  lemma TakenAsSent(s: State, p: nat)
    requires Reached(s) && !Overrun(s) && Shape(s) && p < |s.calls|
    ensures CarriersFit(From(s.log, p)) && From(s.log, p) <= s.sent[p] && KnownPes(s.log, |s.calls|)
  {
    ReachedInv(s);
    assert PeOk(s, p);
    CarriersTellTheCalls(s.calls[p], p, s.sent[p]);
    FitPrefix(s.sent[p], |From(s.log, p)|);
    assert s.sent[p][..|From(s.log, p)|] == From(s.log, p);
  }

  /** Each queue holds its own kind of carriers. */
  lemma RightKind(s: State, r: bool)
    requires Reached(s) && !Overrun(s)
    ensures OfKind(Queue(s, r).taken, r)
  {
    ReachedInv(s);
    R.TakenInTicketOrder(Queue(s, r));
  }

  ghost predicate Drained(q: R.State) { q.head == |q.tickets| && q.consumer.Look? }

  /** Everything posted and the queues empty. */
  ghost predicate AtRest(s: State) {
    Drained(s.reserves) && Drained(s.checks) && forall p :: 0 <= p < |s.todo| ==> s.todo[p] == []
  }

  lemma NothingLeft(log: seq<Carrier>, sent: seq<Carrier>, p: nat)
    requires InSequence(log, [], [], [], sent, p)
    ensures From(log, p) == sent
  {
  }

  lemma NothingWaits(q: R.State)
    requires R.Reached(q) && Drained(q)
    ensures Waiting(q) == []
  {
  }

  /** Then the storage PE has all that every PE sent, and a row in which it stored PE p's carriers remembers
      every call PE p made. */
  lemma RestRemembers(s: State, p: nat, row: seq<Entry>)
    requires Reached(s) && !Overrun(s) && Shape(s) && AtRest(s) && p < |s.calls|
    ensures From(s.log, p) == s.sent[p]
    ensures Stores(row, From(s.log, p)) ==> Remembers(row, s.calls[p])
  {
    ReachedInv(s);
    assert PeOk(s, p);
    NothingWaits(s.reserves);
    NothingWaits(s.checks);
    NothingLeft(s.log, s.sent[p], p);
    if Stores(row, From(s.log, p)) { StoredIsRemembered(row, s.calls[p], p, s.sent[p]); }
  }

  // ------------------------------------------------------------ one phase

  /** A step that is not a new call. */
  ghost predicate Working(s: State, t: State) {
    Shape(s) && exists e :: Enabled(s, e) && !e.Ask? && t == Apply(s, e)
  }

  /** How many carriers of a kind each PE has still to post. */
  function Lengths(todo: seq<seq<Carrier>>, r: bool): (n: seq<nat>)
    ensures |n| == |todo|
  {
    seq(|todo|, p requires 0 <= p < |todo| => Count(todo[p], r))
  }

  function Count(l: seq<Carrier>, r: bool): nat {
    if l == [] then 0 else Count(l[1..], r) + if l[0].Reserve? == r then 1 else 0
  }

  /** All carriers still to be posted or taken out fit into their queue. */
  ghost predicate Fits(s: State, r: bool) {
    Sum(Lengths(s.todo, r)) + |Queue(s, r).tickets| <= Queue(s, r).head + R.Limit(Queue(s, r))
  }

  ghost function Remaining(s: State): nat {
    10 * Sum(Lengths(s.todo, true)) + 10 * Sum(Lengths(s.todo, false)) + R.Remaining(s.reserves) + R.Remaining(s.checks)
  }

  lemma OneLess(todo: seq<seq<Carrier>>, p: nat, r: bool)
    requires p < |todo| && todo[p] != []
    ensures Sum(Lengths(todo[p := todo[p][1..]], r))
            == Sum(Lengths(todo, r)) - if todo[p][0].Reserve? == r then 1 else 0
  {
    assert Lengths(todo[p := todo[p][1..]], r) == Lengths(todo, r)[p := Count(todo[p][1..], r)];
    SumUpdate(Lengths(todo, r), p, Count(todo[p][1..], r));
  }

  lemma TicketCosts(q: R.State, p: nat, c: Carrier)
    requires R.Shape(q) && R.Enabled(q, R.Take(p, c))
    ensures R.Remaining(R.Apply(q, R.Take(p, c))) <= R.Remaining(q) + 9
  {
    var t := R.Apply(q, R.Take(p, c));
    assert R.AllSteps(t) == R.AllSteps(q) + [4];
    assert (R.AllSteps(q) + [4])[..|R.AllSteps(q)|] == R.AllSteps(q);
  }

  lemma InQueueLowers(q: R.State, e: R.Event)
    requires R.Reached(q) && R.Shape(q) && !q.overrun && !e.Take? && R.Enabled(q, e)
    ensures R.Remaining(R.Apply(q, e)) < R.Remaining(q)
  {
    R.ReachedInv(q);
    var t := R.Apply(q, e);
    assert R.Drains(q, t);
    R.DrainLowers(q, t, R.Posted(q));
  }

  /** Before and during a phase whose carriers fit. */
  ghost predicate InPhase(s: State) { Inv(s) && Fits(s, true) && Fits(s, false) && !Overrun(s) }

  lemma PostWorks(s: State, p: nat)
    requires InPhase(s) && Enabled(s, Post(p))
    ensures var t := Apply(s, Post(p));
            InPhase(t) && Remaining(t) < Remaining(s) && t.sent == s.sent && t.calls == s.calls
  {
    var c := s.todo[p][0];
    OneLess(s.todo, p, true);
    OneLess(s.todo, p, false);
    TicketCosts(Queue(s, c.Reserve?), p, c);
    KeepPost(s, p);
  }

  lemma InQueueWorks(s: State, r: bool, e: R.Event)
    requires InPhase(s) && Enabled(s, InQueue(r, e))
    ensures var t := Apply(s, InQueue(r, e));
            InPhase(t) && Remaining(t) < Remaining(s) && t.sent == s.sent && t.calls == s.calls
  {
    InQueueLowers(Queue(s, r), e);
    KeepInQueue(s, r, e);
  }

  lemma WorkingStep(s: State, t: State)
    requires InPhase(s) && Working(s, t)
    ensures InPhase(t) && Remaining(t) < Remaining(s) && t.sent == s.sent && t.calls == s.calls
  {
    var e :| Enabled(s, e) && !e.Ask? && t == Apply(s, e);
    match e
    case Post(p) => PostWorks(s, p);
    case InQueue(r, q) => InQueueWorks(s, r, q);
  }

  lemma QueueMoves(s: State, r: bool) returns (e: Event)
    requires Inv(s) && !Overrun(s) && !Drained(Queue(s, r))
    ensures !e.Ask? && Enabled(s, e)
  {
    R.ReachedInv(Queue(s, r));
    var q := R.Moves(Queue(s, r));
    e := InQueue(r, q);
  }

  lemma SomebodyWorks(s: State) returns (e: Event)
    requires Inv(s) && !Overrun(s) && !AtRest(s)
    ensures !e.Ask? && Enabled(s, e)
  {
    if !Drained(s.reserves) {
      e := QueueMoves(s, true);
    } else if !Drained(s.checks) {
      e := QueueMoves(s, false);
    } else {
      var p: nat :| p < |s.todo| && s.todo[p] != [];
      e := NextTicket(s, p);
    }
  }

  lemma NextTicket(s: State, p: nat) returns (e: Event)
    requires Inv(s) && !Overrun(s) && p < |s.calls| && s.todo[p] != []
    ensures !e.Ask? && Enabled(s, e)
  {
    var r := s.todo[p][0].Reserve?;
    R.ReachedInv(Queue(s, r));
    assert PeOk(s, p) && R.ProducerOk(Queue(s, r), p);
    match Queue(s, r).pc[p]
    case Idle => e := Post(p);
    case PutNext(_) => e := InQueue(r, R.IssuePut(p));
    case FlagNext(_) => e := InQueue(r, R.IssueFlag(p));
  }

  lemma PhaseOnPath(path: seq<State>)
    requires IsPath(Working, path) && InPhase(path[0])
    ensures var s := path[|path| - 1]; InPhase(s) && s.sent == path[0].sent && s.calls == path[0].calls
    ensures |path| - 1 + Remaining(path[|path| - 1]) <= Remaining(path[0])
  {
    var inv := (s: State) => InPhase(s) && s.sent == path[0].sent && s.calls == path[0].calls;
    forall s, t | inv(s) && Working(s, t) ensures inv(t) && Remaining(t) < Remaining(s) { WorkingStep(s, t); }
    MeasureBoundsPath(Working, inv, Remaining, path);
  }

  lemma StaysReached(path: seq<State>)
    requires IsPath(Working, path) && Reached(path[0])
    ensures Reached(path[|path| - 1])
  {
    forall s, t {:trigger Working(s, t)} | Reached(s) && Working(s, t) ensures Reached(t) {
      assert Next(s, t);
      ReachableStep(Initial, Next, s, t);
    }
    PathKeeps(Working, Reached, path);
  }

  /** A phase: if what the PEs have to post fits into the queues, no queue is ever overrun, the phase ends after
      boundedly many steps whatever their order, and at its end the storage PE has from every PE exactly what that PE
      sent, so that its rows remember all calls. */
  lemma PhaseDelivers(path: seq<State>)
    requires IsPath(Working, path) && Reached(path[0]) && Shape(path[0]) && !Overrun(path[0])
    requires Fits(path[0], true) && Fits(path[0], false)
    ensures |path| - 1 <= Remaining(path[0])
    ensures var s := path[|path| - 1];
            && Reached(s) && Shape(s) && !Overrun(s) && s.sent == path[0].sent && s.calls == path[0].calls
            && ((forall t :: !Working(s, t)) ==>
                 AtRest(s) && forall p :: 0 <= p < |s.calls| ==> From(s.log, p) == s.sent[p])
  {
    ReachedInv(path[0]);
    PhaseOnPath(path);
    StaysReached(path);
    var s := path[|path| - 1];
    if forall t :: !Working(s, t) {
      if !AtRest(s) {
        var e := SomebodyWorks(s);
        assert Working(s, Apply(s, e));
      }
      forall p | 0 <= p < |s.calls| ensures From(s.log, p) == s.sent[p] { RestRemembers(s, p, []); }
    }
  }
}
