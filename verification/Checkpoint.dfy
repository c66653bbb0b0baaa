/** What a checkpoint remembers: the words of each reserved memory part, as they were at its last checkpoint.
    Stated over the calls an active PE makes, and over the carriers these calls post. */
module Checkpoint {
  import opened Carriers
  import opened Bits

  /** C's integer division by a positive number, which truncates toward zero. */
  function TruncDiv(a: int, b: nat): int
    requires b > 0
  {
    if a >= 0 then a / b else -((-a) / b)
  }

  /** The number of carriers for `count` words. */
  function Space(count: nat): (n: int)
    ensures n >= 1
  {
    1 + TruncDiv(count - 1, CARR_DATA_SIZE)
  }

  /** It is the ceiling of count / 100, except that no words still take one carrier,
      which rounding division down instead of truncating it would not give. */
  lemma SpaceIsCeiling(count: nat)
    ensures count > 0 ==> (Space(count) - 1) * CARR_DATA_SIZE < count <= Space(count) * CARR_DATA_SIZE
    ensures count == 0 ==> Space(count) == 1 && 1 + (count - 1) / CARR_DATA_SIZE == 0
  {
  }

  /** How many words of the j-th carrier the sender fills. */
  function SentWords(count: nat, j: nat): int {
    if j == Space(count) - 1 then count - j * CARR_DATA_SIZE else CARR_DATA_SIZE
  }

  /** How many words of a carrier a storage PE takes out. */
  function TakenWords(count: nat, offset: nat): int {
    if count <= CARR_DATA_SIZE then count
    else if count - offset <= CARR_DATA_SIZE then count - offset
    else CARR_DATA_SIZE
  }

  /** Both sides compute the same number, for every carrier of every checkpoint. */
  lemma SidesAgree(count: nat, j: nat)
    requires j < Space(count)
    ensures TakenWords(count, j * CARR_DATA_SIZE) == SentWords(count, j)
    ensures 0 <= SentWords(count, j) <= CARR_DATA_SIZE && j * CARR_DATA_SIZE + SentWords(count, j) <= count
    ensures j * CARR_DATA_SIZE + SentWords(count, j)
            == if j == Space(count) - 1 then count else (j + 1) * CARR_DATA_SIZE
  {
    SpaceIsCeiling(count);
  }

  lemma SpaceGrows(count: nat, more: nat)
    requires count <= more
    ensures Space(count) <= Space(more)
  {
  }

  // ------------------------------------------------------------ calls and carriers

  datatype Option<T> = None | Some(value: T)

  /** A memory part as reserved. */
  datatype Part = Part(count: nat, symmetric: bool)

  /** A call of an active PE: a reservation, or a checkpoint of the words `mem`. */
  datatype Call =
    | Reserving(id: nat, count: nat, symmetric: bool)
    | Checking(id: nat, mem: seq<int>)

  /** The parts reserved so far; a second reservation of an id does nothing. */
  function Parts(calls: seq<Call>): seq<Part> {
    if calls == [] then []
    else
      var parts := Parts(calls[..|calls| - 1]);
      match calls[|calls| - 1]
      case Reserving(id, count, symmetric) => if id < |parts| then parts else parts + [Part(count, symmetric)]
      case Checking(id, mem) => parts
  }

  /** Ids are reserved in order, before use, and a checkpoint has at most the reserved number of words. */
  predicate CallFits(call: Call, parts: seq<Part>) {
    match call
    case Reserving(id, count, symmetric) => id <= |parts|
    case Checking(id, mem) => id < |parts| && |mem| <= parts[id].count
  }

  predicate CallsFit(calls: seq<Call>) {
    calls != [] ==> CallsFit(calls[..|calls| - 1]) && CallFits(calls[|calls| - 1], Parts(calls[..|calls| - 1]))
  }

  /** Word w of part id at the last checkpoint that included it. */
  function Latest(calls: seq<Call>, id: nat, w: nat): Option<int> {
    if calls == [] then None
    else
      match calls[|calls| - 1]
      case Checking(i, mem) => if i == id && w < |mem| then Some(mem[w]) else Latest(calls[..|calls| - 1], id, w)
      case _ => Latest(calls[..|calls| - 1], id, w)
  }

  predicate Reserves(call: Call, id: nat) { call.Reserving? && call.id == id }
  predicate Checks(call: Call, id: nat, w: nat) { call.Checking? && call.id == id && w < |call.mem| }

  ghost predicate FirstReserve(calls: seq<Call>, id: nat, k: int) {
    0 <= k < |calls| && Reserves(calls[k], id) && forall j :: 0 <= j < k ==> !Reserves(calls[j], id)
  }

  ghost predicate LastCheck(calls: seq<Call>, id: nat, w: nat, k: int) {
    0 <= k < |calls| && Checks(calls[k], id, w) && forall j :: k < j < |calls| ==> !Checks(calls[j], id, w)
  }

  /** A part is what the first reservation of its id made it. */
  lemma {:induction false} PartIsFirstReserve(calls: seq<Call>, id: nat, part: Part)
    requires CallsFit(calls)
    ensures id < |Parts(calls)| && Parts(calls)[id] == part
            <==> exists k :: FirstReserve(calls, id, k) && part == Part(calls[k].count, calls[k].symmetric)
  {
    if calls != [] {
      var before := calls[..|calls| - 1];
      PartIsFirstReserve(before, id, part);
      forall k | 0 <= k < |before| ensures FirstReserve(calls, id, k) <==> FirstReserve(before, id, k) {}
      KnownIfReserved(before, id);
      if Reserves(calls[|calls| - 1], id) && id == |Parts(before)| {
        assert FirstReserve(calls, id, |calls| - 1);
      } else {
        assert id < |Parts(calls)| <==> id < |Parts(before)|;
        forall k | FirstReserve(calls, id, k) ensures k < |before| {}
      }
    }
  }

  lemma {:induction false} KnownIfReserved(calls: seq<Call>, id: nat)
    requires CallsFit(calls)
    ensures id < |Parts(calls)| <==> exists k :: 0 <= k < |calls| && Reserves(calls[k], id)
  {
    if calls != [] {
      var before := calls[..|calls| - 1];
      KnownIfReserved(before, id);
      if k :| 0 <= k < |before| && Reserves(before[k], id) { assert Reserves(calls[k], id); }
    }
  }

  /** A word of a part is what the last checkpoint that included it said. */
  lemma {:induction false} LatestIsLastCheck(calls: seq<Call>, id: nat, w: nat, v: int)
    ensures Latest(calls, id, w) == Some(v) <==> exists k :: LastCheck(calls, id, w, k) && calls[k].mem[w] == v
  {
    if calls != [] {
      var before := calls[..|calls| - 1];
      LatestIsLastCheck(before, id, w, v);
      if Checks(calls[|calls| - 1], id, w) {
        assert LastCheck(calls, id, w, |calls| - 1);
      } else {
        forall k | 0 <= k < |before| ensures LastCheck(calls, id, w, k) <==> LastCheck(before, id, w, k) {}
      }
    }
  }

  /** The same two notions read off the carriers alone. */
  function PartsOf(l: seq<Carrier>): seq<Part> {
    if l == [] then []
    else
      match l[|l| - 1]
      case Reserve(pe, id, count, symmetric) => PartsOf(l[..|l| - 1]) + [Part(count, symmetric)]
      case _ => PartsOf(l[..|l| - 1])
  }

  predicate Covers(c: Carrier, id: nat, w: nat) {
    && c.Check? && c.id == id && c.offset <= w < c.offset + TakenWords(c.count, c.offset)
    && w - c.offset < |c.data|
  }

  function LatestOf(l: seq<Carrier>, id: nat, w: nat): Option<int> {
    if l == [] then None
    else if Covers(l[|l| - 1], id, w) then Some(l[|l| - 1].data[w - l[|l| - 1].offset])
    else LatestOf(l[..|l| - 1], id, w)
  }

  /** A carrier that can be stored when these parts are reserved. */
  predicate CarrierFits(c: Carrier, parts: seq<Part>) {
    match c
    case Reserve(pe, id, count, symmetric) => id == |parts|
    case Check(pe, id, count, offset, data) =>
      && id < |parts| && offset % CARR_DATA_SIZE == 0 && offset / CARR_DATA_SIZE < Space(parts[id].count)
      && |data| == CARR_DATA_SIZE && 0 <= TakenWords(count, offset) <= CARR_DATA_SIZE
  }

  predicate CarriersFit(l: seq<Carrier>) {
    l != [] ==> CarriersFit(l[..|l| - 1]) && CarrierFits(l[|l| - 1], PartsOf(l[..|l| - 1]))
  }

  lemma {:induction false} FitPrefix(l: seq<Carrier>, k: nat)
    requires CarriersFit(l) && k <= |l|
    ensures CarriersFit(l[..k])
  {
    if k == |l| {
      assert l[..k] == l;
    } else {
      FitPrefix(l[..|l| - 1], k);
      assert l[..|l| - 1][..k] == l[..k];
    }
  }

  // ------------------------------------------------------------ what one call posts to one storage PE

  /** Carrier j of a checkpoint of `mem`; what its data holds beyond the sent words is whatever was there. */
  ghost predicate Carries(c: Carrier, pe: nat, id: nat, mem: seq<int>, j: nat)
    requires j < Space(|mem|)
  {
    && c.Check? && c.pe == pe && c.id == id && c.count == |mem| && c.offset == j * CARR_DATA_SIZE
    && |c.data| == CARR_DATA_SIZE
    && forall k :: 0 <= k < SentWords(|mem|, j) && j * CARR_DATA_SIZE + k < |mem| ==>
         c.data[k] == mem[j * CARR_DATA_SIZE + k]
  }

  ghost predicate Posts(call: Call, parts: seq<Part>, pe: nat, sent: seq<Carrier>) {
    match call
    case Reserving(id, count, symmetric) => sent == if id < |parts| then [] else [Reserve(pe, id, count, symmetric)]
    case Checking(id, mem) => |sent| == Space(|mem|) && forall j :: 0 <= j < |sent| ==> Carries(sent[j], pe, id, mem, j)
  }

  function SentCount(call: Call, parts: seq<Part>): nat {
    match call
    case Reserving(id, count, symmetric) => if id < |parts| then 0 else 1
    case Checking(id, mem) => Space(|mem|)
  }

  /** The carriers of all calls, in order. */
  ghost predicate AllPosted(calls: seq<Call>, pe: nat, posted: seq<Carrier>) {
    if calls == [] then posted == []
    else
      var last, before := calls[|calls| - 1], calls[..|calls| - 1];
      var n := SentCount(last, Parts(before));
      && n <= |posted| && Posts(last, Parts(before), pe, posted[|posted| - n..])
      && AllPosted(before, pe, posted[..|posted| - n])
  }

  lemma PostMore(calls: seq<Call>, pe: nat, posted: seq<Carrier>, call: Call, sent: seq<Carrier>)
    requires AllPosted(calls, pe, posted) && Posts(call, Parts(calls), pe, sent)
    ensures AllPosted(calls + [call], pe, posted + sent)
  {
    var all := posted + sent;
    assert (calls + [call])[..|calls|] == calls;
    assert all[..|all| - |sent|] == posted && all[|all| - |sent|..] == sent;
  }

  /** After the first k carriers of a checkpoint, exactly the words these carry are new. */
  lemma {:induction false} ChunksSoFar(before: seq<Carrier>, sent: seq<Carrier>, k: nat, parts: seq<Part>, pe: nat,
                                       id: nat, mem: seq<int>)
    requires Posts(Checking(id, mem), parts, pe, sent) && k <= |sent|
    requires CarriersFit(before) && PartsOf(before) == parts && CallFits(Checking(id, mem), parts)
    ensures CarriersFit(before + sent[..k]) && PartsOf(before + sent[..k]) == parts
    ensures forall i: nat, w: nat :: LatestOf(before + sent[..k], i, w) ==
              if i == id && w < |mem| && w < k * CARR_DATA_SIZE then Some(mem[w]) else LatestOf(before, i, w)
  {
    var l := before + sent[..k];
    if k == 0 {
      assert l == before;
    } else {
      var j := k - 1;
      ChunksSoFar(before, sent, j, parts, pe, id, mem);
      assert l[..|l| - 1] == before + sent[..j] && l[|l| - 1] == sent[j];
      assert Carries(sent[j], pe, id, mem, j);
      SidesAgree(|mem|, j);
      SpaceGrows(|mem|, parts[id].count);
      assert j * CARR_DATA_SIZE / CARR_DATA_SIZE == j;
      forall i: nat, w: nat
        ensures LatestOf(l, i, w) ==
                if i == id && w < |mem| && w < k * CARR_DATA_SIZE then Some(mem[w]) else LatestOf(before, i, w)
      {
        ChunkAt(sent[j], pe, id, mem, j, i, w);
      }
    }
  }

  lemma ChunkAt(c: Carrier, pe: nat, id: nat, mem: seq<int>, j: nat, i: nat, w: nat)
    requires j < Space(|mem|) && Carries(c, pe, id, mem, j)
    ensures Covers(c, i, w) <==> i == id && j * CARR_DATA_SIZE <= w < (j + 1) * CARR_DATA_SIZE && w < |mem|
    ensures Covers(c, i, w) ==> c.data[w - c.offset] == mem[w]
  {
    SidesAgree(|mem|, j);
    SpaceIsCeiling(|mem|);
    if Covers(c, i, w) {
      var k := w - c.offset;
      assert c.data[k] == mem[j * CARR_DATA_SIZE + k];
    }
  }

  /** Splitting into carriers loses nothing and reorders nothing: the carriers of any sequence of calls fit,
      reserve the same parts, and their latest word is the calls' latest word, for every part and every index. */
  lemma {:induction false} CarriersTellTheCalls(calls: seq<Call>, pe: nat, posted: seq<Carrier>)
    requires CallsFit(calls) && AllPosted(calls, pe, posted)
    ensures CarriersFit(posted) && PartsOf(posted) == Parts(calls)
    ensures forall i: nat, w: nat :: LatestOf(posted, i, w) == Latest(calls, i, w)
  {
    if calls != [] {
      var last, before := calls[|calls| - 1], calls[..|calls| - 1];
      var n := SentCount(last, Parts(before));
      var earlier, sent := posted[..|posted| - n], posted[|posted| - n..];
      CarriersTellTheCalls(before, pe, earlier);
      match last
      case Reserving(id, count, symmetric) =>
        if n == 0 { assert posted == earlier; } else { assert posted[..|posted| - 1] == earlier; }
      case Checking(id, mem) =>
        ChunksSoFar(earlier, sent, n, Parts(before), pe, id, mem);
        assert earlier + sent[..n] == posted;
        SpaceIsCeiling(|mem|);
    }
  }

  // ------------------------------------------------------------ stored entries

  /** One stored carrier: its share of a memory part. */
  datatype Chunk = Chunk(count: nat, symmetric: bool, offset: int, data: seq<int>)

  type Entry = seq<Chunk>

  ghost predicate EntryShape(e: Entry, part: Part) {
    && |e| == Space(part.count)
    && forall k :: 0 <= k < |e| ==>
         e[k].count == part.count && e[k].symmetric == part.symmetric && |e[k].data| == CARR_DATA_SIZE
  }

  /** Word w of a stored part. */
  function Word(e: Entry, w: nat): int
    requires w / CARR_DATA_SIZE < |e| && |e[w / CARR_DATA_SIZE].data| == CARR_DATA_SIZE
  {
    e[w / CARR_DATA_SIZE].data[w % CARR_DATA_SIZE]
  }

  /** The entry holds word w with value v, in a chunk that knows its place. */
  ghost predicate Holds(e: Entry, w: nat, v: int) {
    && w / CARR_DATA_SIZE < |e| && |e[w / CARR_DATA_SIZE].data| == CARR_DATA_SIZE
    && Word(e, w) == v && e[w / CARR_DATA_SIZE].offset == w / CARR_DATA_SIZE * CARR_DATA_SIZE
  }

  ghost predicate EntryRemembers(e: Entry, calls: seq<Call>, i: nat) {
    && i < |Parts(calls)| && EntryShape(e, Parts(calls)[i])
    && forall w: nat {:trigger Latest(calls, i, w)} :: Latest(calls, i, w).Some? ==>
         Holds(e, w, Latest(calls, i, w).value)
  }

  ghost predicate EntryStores(e: Entry, l: seq<Carrier>, i: nat) {
    && i < |PartsOf(l)| && EntryShape(e, PartsOf(l)[i])
    && forall w: nat {:trigger LatestOf(l, i, w)} :: LatestOf(l, i, w).Some? ==> Holds(e, w, LatestOf(l, i, w).value)
  }

  /** One PE's entries, as a shadow memory or a row of a checkpoint table, hold what these calls checkpointed. */
  ghost predicate Remembers(row: seq<Entry>, calls: seq<Call>) {
    && |row| == |Parts(calls)|
    && forall i {:trigger EntryRemembers(row[i], calls, i)} :: 0 <= i < |row| ==> EntryRemembers(row[i], calls, i)
  }

  /** The same, of the carriers that came in. */
  ghost predicate Stores(row: seq<Entry>, l: seq<Carrier>) {
    && |row| == |PartsOf(l)|
    && forall i {:trigger EntryStores(row[i], l, i)} :: 0 <= i < |row| ==> EntryStores(row[i], l, i)
  }

  /** A storage PE that has stored all carriers of some calls remembers the calls. */
  lemma StoredIsRemembered(row: seq<Entry>, calls: seq<Call>, pe: nat, posted: seq<Carrier>)
    requires CallsFit(calls) && AllPosted(calls, pe, posted) && Stores(row, posted)
    ensures Remembers(row, calls)
  {
    CarriersTellTheCalls(calls, pe, posted);
    forall i | 0 <= i < |row| ensures EntryRemembers(row[i], calls, i) {
      assert EntryStores(row[i], posted, i);
      forall w: nat | Latest(calls, i, w).Some? ensures Holds(row[i], w, Latest(calls, i, w).value) {
        assert LatestOf(posted, i, w) == Latest(calls, i, w);
      }
    }
  }

  /** Replication: whatever the interleaving with other PEs' carriers, two storage PEs that have stored all of
      one PE's carriers, and that PE's own shadow memory, agree on every word that was ever checkpointed. */
  lemma ReplicasAgree(row: seq<Entry>, other: seq<Entry>, calls: seq<Call>, i: nat, w: nat)
    requires Remembers(row, calls) && Remembers(other, calls)
    requires i < |Parts(calls)| && Latest(calls, i, w).Some?
    ensures |row| == |other| == |Parts(calls)|
    ensures Holds(row[i], w, Latest(calls, i, w).value) && Holds(other[i], w, Latest(calls, i, w).value)
  {
    assert EntryRemembers(row[i], calls, i) && EntryRemembers(other[i], calls, i);
  }

  // ------------------------------------------------------------ one step

  lemma ReserveStored(row: seq<Entry>, l: seq<Carrier>, c: Carrier, e: Entry)
    requires Stores(row, l) && CarriersFit(l) && c.Reserve? && EntryShape(e, Part(c.count, c.symmetric))
    ensures Stores(row + [e], l + [c])
  {
    var more := l + [c];
    assert more[..|more| - 1] == l;
    forall i | 0 <= i < |row| + 1 ensures EntryStores((row + [e])[i], more, i) {
      if i < |row| {
        assert EntryStores(row[i], l, i);
        forall w: nat | LatestOf(more, i, w).Some? ensures Holds(row[i], w, LatestOf(more, i, w).value) {
          assert LatestOf(more, i, w) == LatestOf(l, i, w);
        }
      } else {
        NothingBeforeReserve(l, i);
      }
    }
  }

  /** No carrier names a part before it is reserved. */
  lemma {:induction false} NothingBeforeReserve(l: seq<Carrier>, i: nat)
    requires CarriersFit(l) && i >= |PartsOf(l)|
    ensures forall w: nat :: LatestOf(l, i, w).None?
  {
    if l != [] { NothingBeforeReserve(l[..|l| - 1], i); }
  }

  /** Storing a carrier: chunk offset / 100 gets the carrier's place and the words taken out of it. */
  ghost predicate StoredIn(e: Entry, c: Carrier, t: Entry)
    requires c.Check? && c.offset / CARR_DATA_SIZE < |e|
    requires |c.data| == CARR_DATA_SIZE == |e[c.offset / CARR_DATA_SIZE].data|
             && 0 <= TakenWords(c.count, c.offset) <= CARR_DATA_SIZE
  {
    var k, n := c.offset / CARR_DATA_SIZE, TakenWords(c.count, c.offset);
    t == e[k := e[k].(offset := c.offset, data := c.data[..n] + e[k].data[n..])]
  }

  /** Then the carrier's words are there, and all words it does not cover are as they were. */
  lemma WordStored(e: Entry, c: Carrier, t: Entry, id: nat, w: nat, v: int)
    requires c.Check? && c.id == id && c.offset % CARR_DATA_SIZE == 0 && c.offset / CARR_DATA_SIZE < |e|
    requires |c.data| == CARR_DATA_SIZE == |e[c.offset / CARR_DATA_SIZE].data|
             && 0 <= TakenWords(c.count, c.offset) <= CARR_DATA_SIZE
    requires StoredIn(e, c, t)
    requires if Covers(c, id, w) then v == c.data[w - c.offset] else Holds(e, w, v)
    ensures Holds(t, w, v)
  {
    var k := c.offset / CARR_DATA_SIZE;
    assert c.offset == k * CARR_DATA_SIZE;
    if Covers(c, id, w) {
      Quotient(w, CARR_DATA_SIZE, k);
    }
  }

  lemma CheckStored(row: seq<Entry>, l: seq<Carrier>, c: Carrier, t: Entry)
    requires Stores(row, l) && c.Check? && CarrierFits(c, PartsOf(l))
    requires EntryStores(row[c.id], l, c.id) && StoredIn(row[c.id], c, t)
    ensures Stores(row[c.id := t], l + [c])
  {
    var more, after := l + [c], row[c.id := t];
    assert more[..|more| - 1] == l;
    forall i | 0 <= i < |after| ensures EntryStores(after[i], more, i) {
      assert EntryStores(row[i], l, i);
      forall w: nat | LatestOf(more, i, w).Some? ensures Holds(after[i], w, LatestOf(more, i, w).value) {
        if !Covers(c, i, w) { assert LatestOf(more, i, w) == LatestOf(l, i, w); }
        if i == c.id { WordStored(row[i], c, t, i, w, LatestOf(more, i, w).value); }
      }
    }
  }

  // ------------------------------------------------------------ what a rollback reads back

  /** The number of words read back of a part of `count` words: the last carrier gives count % 100. */
  function ReadBack(count: nat): nat {
    (Space(count) - 1) * CARR_DATA_SIZE + count % CARR_DATA_SIZE
  }

  /** That is all of them unless the last carrier is full; then the whole last carrier is left out. */
  lemma ReadBackLosesFullCarrier(count: nat)
    ensures ReadBack(count) == count <==> count % CARR_DATA_SIZE != 0 || count == 0
    ensures count % CARR_DATA_SIZE == 0 && count > 0 ==> ReadBack(count) == count - CARR_DATA_SIZE
  {
    SpaceIsCeiling(count);
  }

  /** Every word of the part was in some checkpoint, so that every chunk knows its place. */
  ghost predicate Covered(calls: seq<Call>, i: nat) {
    i < |Parts(calls)| && forall w: nat :: w < Parts(calls)[i].count ==> Latest(calls, i, w).Some?
  }

  /** The words of a part as last checkpointed. */
  ghost function LastWords(calls: seq<Call>, i: nat): (r: seq<int>)
    requires Covered(calls, i)
    ensures |r| == Parts(calls)[i].count
  {
    seq(Parts(calls)[i].count, w requires 0 <= w < Parts(calls)[i].count => Latest(calls, i, w).value)
  }

  /** What a rollback makes of a part that holds `now`. */
  ghost function RolledBack(calls: seq<Call>, i: nat, now: seq<int>): (r: seq<int>)
    requires Covered(calls, i) && |now| == Parts(calls)[i].count
    ensures |r| == |now|
  {
    var n := ReadBack(|now|);
    ReadBackLosesFullCarrier(|now|);
    LastWords(calls, i)[..n] + now[n..]
  }

  lemma RolledBackWord(calls: seq<Call>, i: nat, now: seq<int>, w: nat)
    requires Covered(calls, i) && w < |now| == Parts(calls)[i].count
    ensures Latest(calls, i, w).Some?
    ensures RolledBack(calls, i, now)[w] ==
            if |now| % CARR_DATA_SIZE != 0 || w < |now| - CARR_DATA_SIZE then Latest(calls, i, w).value else now[w]
  {
    ReadBackLosesFullCarrier(|now|);
  }

  /** A rollback brings back every word of a part as last checkpointed, but for the last 100 words if its length is a
      positive multiple of 100; these stay what they were.  So it restores the last checkpoint, whatever happened to
      the part since, exactly if the length is not such a multiple. */
  lemma RoundTrip(calls: seq<Call>, i: nat)
    requires Covered(calls, i)
    ensures forall now: seq<int>, w: nat {:trigger RolledBack(calls, i, now)[w]} ::
              w < |now| == Parts(calls)[i].count ==>
                RolledBack(calls, i, now)[w] ==
                if |now| % CARR_DATA_SIZE != 0 || w < |now| - CARR_DATA_SIZE then Latest(calls, i, w).value else now[w]
    ensures (forall now: seq<int> {:trigger RolledBack(calls, i, now)} ::
              |now| == Parts(calls)[i].count ==> RolledBack(calls, i, now) == LastWords(calls, i))
            <==> (Parts(calls)[i].count % CARR_DATA_SIZE != 0 || Parts(calls)[i].count == 0)
  {
    var count := Parts(calls)[i].count;
    ReadBackLosesFullCarrier(count);
    forall now: seq<int>, w: nat | w < |now| == count
      ensures RolledBack(calls, i, now)[w] ==
              if |now| % CARR_DATA_SIZE != 0 || w < |now| - CARR_DATA_SIZE then Latest(calls, i, w).value else now[w]
    {
      RolledBackWord(calls, i, now, w);
    }
    if count % CARR_DATA_SIZE == 0 && count > 0 {
      var changed := seq(count, w requires 0 <= w < count => LastWords(calls, i)[w] + 1);
      assert RolledBack(calls, i, changed)[count - 1] != LastWords(calls, i)[count - 1];
    }
  }

  /** Checkpoints of the whole part: its last words are those of the last such call. */
  lemma {:induction false} LastCallCounts(calls: seq<Call>, id: nat, mem: seq<int>, later: seq<Call>)
    requires id < |Parts(calls)| && |mem| == Parts(calls)[id].count
    requires forall k :: 0 <= k < |later| && later[k].Checking? ==> later[k].id != id
    ensures Covered(calls + [Checking(id, mem)] + later, id)
    ensures LastWords(calls + [Checking(id, mem)] + later, id) == mem
    ensures forall w :: 0 <= w < |mem| ==> Latest(calls + [Checking(id, mem)] + later, id, w) == Some(mem[w])
  {
    var all := calls + [Checking(id, mem)] + later;
    if later == [] {
      assert all[..|all| - 1] == calls;
    } else {
      LastCallCounts(calls, id, mem, later[..|later| - 1]);
      assert all[..|all| - 1] == calls + [Checking(id, mem)] + later[..|later| - 1];
      LaterPartsSame(all[..|all| - 1], all[|all| - 1], id);
    }
  }

  /** A part, once reserved, keeps its length; a call that does not checkpoint it leaves its words. */
  lemma LaterPartsSame(calls: seq<Call>, call: Call, id: nat)
    requires Covered(calls, id) && (call.Checking? ==> call.id != id)
    ensures Covered(calls + [call], id) && LastWords(calls + [call], id) == LastWords(calls, id)
  {
    var all := calls + [call];
    assert all[..|all| - 1] == calls;
    assert Parts(all)[id] == Parts(calls)[id];
    assert forall w: nat {:trigger Latest(all, id, w)} :: Latest(all, id, w) == Latest(calls, id, w);
  }
}
