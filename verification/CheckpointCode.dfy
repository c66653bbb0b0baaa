/** Reservation, checkpoint and rollback in many-copy mode, as the active and the storage PEs run them. */
module CheckpointCode {
  import opened Carriers
  import opened Bits
  import opened Checkpoint
  import Run = CheckpointRun

  // ------------------------------------------------------------ shared loops

  /** Copies `mem` word by word into the chunks of a shadow entry. */
  method FillChunks(e: Entry, part: Part, mem: seq<int>) returns (t: Entry)
    requires EntryShape(e, part) && |mem| <= part.count
    ensures EntryShape(t, part)
    ensures forall w: nat :: w < |mem| ==> Holds(t, w, mem[w])
    ensures forall w: nat, v :: w >= |mem| && Holds(e, w, v) ==> Holds(t, w, v)
  {
    SpaceGrows(|mem|, part.count);
    SpaceIsCeiling(|mem|);
    t := PlaceChunks(e, part, Space(|mem|));
    ghost var placed := t;
    for i := 0 to |mem|
      invariant EntryShape(t, part)
      invariant forall k :: 0 <= k < |e| ==> t[k].offset == placed[k].offset
      invariant forall w: nat :: w < i ==> Word(t, w) == mem[w]
      invariant forall w: nat :: i <= w < |e| * CARR_DATA_SIZE ==> Word(t, w) == Word(e, w)
    {
      t := StoreWord(t, part, i, mem[i]);
    }
  }

  /** Each of the first chunks gets its place. */
  method PlaceChunks(e: Entry, part: Part, space: nat) returns (t: Entry)
    requires EntryShape(e, part) && space <= |e|
    ensures EntryShape(t, part)
    ensures forall k :: 0 <= k < |e| ==> t[k] == e[k].(offset := if k < space then k * CARR_DATA_SIZE else e[k].offset)
  {
    t := e;
    for i := 0 to space
      invariant EntryShape(t, part)
      invariant forall k :: 0 <= k < |e| ==> t[k] == e[k].(offset := if k < i then k * CARR_DATA_SIZE else e[k].offset)
    {
      t := t[i := t[i].(offset := i * CARR_DATA_SIZE)];
    }
  }

  method StoreWord(e: Entry, part: Part, i: nat, x: int) returns (t: Entry)
    requires EntryShape(e, part) && i < |e| * CARR_DATA_SIZE
    ensures EntryShape(t, part)
    ensures forall k :: 0 <= k < |e| ==> t[k].offset == e[k].offset
    ensures forall w: nat :: w < |e| * CARR_DATA_SIZE ==> Word(t, w) == if w == i then x else Word(e, w)
  {
    var k := i / CARR_DATA_SIZE;
    t := e[k := e[k].(data := e[k].data[i % CARR_DATA_SIZE := x])];
  }

  /** One storage PE's share of a checkpoint.  `data` is the carrier's buffer, used again for every
      carrier and never cleared. */
  method SendChunks(pe: nat, id: nat, mem: seq<int>, ghost parts: seq<Part>, data: seq<int>)
      returns (sent: seq<Carrier>, left: seq<int>)
    requires |data| == CARR_DATA_SIZE
    ensures Posts(Checking(id, mem), parts, pe, sent) && |left| == CARR_DATA_SIZE
  {
    sent, left := [], data;
    var space := Space(|mem|);
    for j := 0 to space
      invariant |sent| == j && |left| == CARR_DATA_SIZE
      invariant forall i :: 0 <= i < j ==> Carries(sent[i], pe, id, mem, i)
    {
      SidesAgree(|mem|, j);
      var lastData := if j == space - 1 then |mem| - j * CARR_DATA_SIZE else CARR_DATA_SIZE;
      for k := 0 to lastData
        invariant |left| == CARR_DATA_SIZE
        invariant forall i :: 0 <= i < k ==> left[i] == mem[j * CARR_DATA_SIZE + i]
      {
        left := left[k := mem[k + j * CARR_DATA_SIZE]];
      }
      sent := sent + [Check(pe, id, |mem|, j * CARR_DATA_SIZE, left)];
    }
  }

  /** Copies the first words of a carrier to its place. */
  method RestoreChunk(c: Chunk, readingData: nat, adr: array<int>)
    requires readingData <= |c.data|
    requires readingData > 0 ==> 0 <= c.offset && c.offset + readingData <= adr.Length
    modifies adr
    ensures adr[..] == if readingData == 0 then old(adr[..])
                       else old(adr[..c.offset]) + c.data[..readingData] + old(adr[c.offset + readingData..])
  {
    for j := 0 to readingData
      invariant adr[..] == if readingData == 0 then old(adr[..])
                           else old(adr[..c.offset]) + c.data[..j] + old(adr[c.offset + j..])
    {
      adr[c.offset + j] := c.data[j];
    }
  }

  /** The words of the first chunks of an entry. */
  ghost function Words(e: Entry, n: nat): seq<int>
    requires forall k :: 0 <= k < |e| ==> |e[k].data| == CARR_DATA_SIZE
    requires n <= |e| * CARR_DATA_SIZE
  {
    seq(n, w requires 0 <= w < n => Word(e, w))
  }

  lemma NextWords(e: Entry, k: nat, n: nat)
    requires forall i :: 0 <= i < |e| ==> |e[i].data| == CARR_DATA_SIZE
    requires k < |e| && n <= CARR_DATA_SIZE
    ensures Words(e, k * CARR_DATA_SIZE + n) == Words(e, k * CARR_DATA_SIZE) + e[k].data[..n]
  {
    forall j | 0 <= j < n ensures Word(e, k * CARR_DATA_SIZE + j) == e[k].data[j] {
      Quotient(k * CARR_DATA_SIZE + j, CARR_DATA_SIZE, k);
    }
  }

  /** The restored front grows by what is copied behind it. */
  lemma Splice(front: seq<int>, more: seq<int>, was: seq<int>, now: seq<int>)
    requires |front| + |more| <= |was| && now == front + was[|front|..]
    ensures |more| > 0 ==> now[..|front|] + more + now[|front| + |more|..] == front + more + was[|front| + |more|..]
    ensures |more| == 0 ==> now == front + more + was[|front| + |more|..]
  {
  }

  /** How many words a rollback copies from the first k carriers of a part. */
  function CopiedWords(count: nat, k: nat): nat {
    if k == Space(count) then ReadBack(count) else k * CARR_DATA_SIZE
  }

  lemma CopyNext(count: nat, k: nat, readingData: nat)
    requires k < Space(count)
    requires readingData == if k == Space(count) - 1 then count % CARR_DATA_SIZE else CARR_DATA_SIZE
    ensures CopiedWords(count, k) == k * CARR_DATA_SIZE
    ensures CopiedWords(count, k + 1) == CopiedWords(count, k) + readingData <= count
    ensures readingData > 0 ==> k * CARR_DATA_SIZE < count
  {
    SpaceIsCeiling(count);
  }

  /** Copies a stored entry back, carrier by carrier. */
  method RestoreEntry(e: Entry, adr: array<int>)
    requires |e| == Space(adr.Length)
    requires forall k :: 0 <= k < |e| ==> e[k].count == adr.Length && |e[k].data| == CARR_DATA_SIZE
    requires forall k :: 0 <= k < |e| && k * CARR_DATA_SIZE < adr.Length ==> e[k].offset == k * CARR_DATA_SIZE
    modifies adr
    ensures ReadBack(adr.Length) <= adr.Length
    ensures adr[..] == Words(e, ReadBack(adr.Length)) + old(adr[ReadBack(adr.Length)..])
  {
    ghost var was := adr[..];
    var readingCarr := Space(e[0].count);
    for k := 0 to readingCarr
      invariant CopiedWords(adr.Length, k) <= adr.Length
      invariant adr[..] == Words(e, CopiedWords(adr.Length, k)) + was[CopiedWords(adr.Length, k)..]
    {
      RestoreNext(e, adr, k, was);
    }
  }

  method RestoreNext(e: Entry, adr: array<int>, k: nat, ghost was: seq<int>)
    requires |e| == Space(adr.Length) && k < |e| && |was| == adr.Length
    requires forall i :: 0 <= i < |e| ==> e[i].count == adr.Length && |e[i].data| == CARR_DATA_SIZE
    requires k * CARR_DATA_SIZE < adr.Length ==> e[k].offset == k * CARR_DATA_SIZE
    requires CopiedWords(adr.Length, k) <= adr.Length
    requires adr[..] == Words(e, CopiedWords(adr.Length, k)) + was[CopiedWords(adr.Length, k)..]
    modifies adr
    ensures CopiedWords(adr.Length, k + 1) <= adr.Length
    ensures adr[..] == Words(e, CopiedWords(adr.Length, k + 1)) + was[CopiedWords(adr.Length, k + 1)..]
  {
    var readingData := if k == |e| - 1 then e[k].count % CARR_DATA_SIZE else CARR_DATA_SIZE;
    CopyNext(adr.Length, k, readingData);
    NextWords(e, k, readingData);
    Splice(Words(e, k * CARR_DATA_SIZE), e[k].data[..readingData], was, adr[..]);
    RestoreChunk(e[k], readingData, adr);
  }

  /** A freshly allocated entry: whatever the memory held, with the part's own data filled in. */
  method NewEntry(count: nat, symmetric: bool, garbage: seq<Chunk>) returns (e: Entry)
    requires |garbage| == Space(count) && forall k :: 0 <= k < |garbage| ==> |garbage[k].data| == CARR_DATA_SIZE
    ensures EntryShape(e, Part(count, symmetric))
  {
    e := garbage;
    for i := 0 to Space(count)
      invariant |e| == Space(count)
      invariant forall k :: 0 <= k < |e| ==> |e[k].data| == CARR_DATA_SIZE
      invariant forall k :: 0 <= k < i ==> e[k].count == count && e[k].symmetric == symmetric
    {
      e := e[i := e[i].(count := count, symmetric := symmetric)];
    }
  }

  // ------------------------------------------------------------ the active PE

  lemma ReserveRemembered(row: seq<Entry>, calls: seq<Call>, call: Call, e: Entry)
    requires Remembers(row, calls) && CallsFit(calls) && call.Reserving? && call.id == |row|
    requires EntryShape(e, Part(call.count, call.symmetric))
    ensures Remembers(row + [e], calls + [call])
  {
    var more, after := calls + [call], row + [e];
    assert more[..|more| - 1] == calls;
    forall i | 0 <= i < |after| ensures EntryRemembers(after[i], more, i) {
      if i < |row| {
        assert EntryRemembers(row[i], calls, i);
        forall w: nat | Latest(more, i, w).Some? ensures Holds(row[i], w, Latest(more, i, w).value) {
          assert Latest(more, i, w) == Latest(calls, i, w);
        }
      } else {
        NothingBefore(calls, i);
      }
    }
  }

  lemma {:induction false} NothingBefore(calls: seq<Call>, i: nat)
    requires CallsFit(calls) && i >= |Parts(calls)|
    ensures forall w: nat :: Latest(calls, i, w).None?
  {
    if calls != [] { NothingBefore(calls[..|calls| - 1], i); }
  }

  lemma AgainRemembered(row: seq<Entry>, calls: seq<Call>, call: Call)
    requires Remembers(row, calls) && call.Reserving? && call.id < |row|
    ensures Remembers(row, calls + [call]) && Parts(calls + [call]) == Parts(calls)
  {
    var more := calls + [call];
    assert more[..|more| - 1] == calls;
    forall i | 0 <= i < |row| ensures EntryRemembers(row[i], more, i) {
      assert EntryRemembers(row[i], calls, i);
      forall w: nat | Latest(more, i, w).Some? ensures Holds(row[i], w, Latest(more, i, w).value) {
        assert Latest(more, i, w) == Latest(calls, i, w);
      }
    }
  }

  lemma CheckRemembered(row: seq<Entry>, calls: seq<Call>, id: nat, mem: seq<int>, t: Entry)
    requires Remembers(row, calls) && id < |row| && EntryShape(t, Parts(calls)[id])
    requires forall w: nat :: w < |mem| ==> Holds(t, w, mem[w])
    requires forall w: nat, v :: w >= |mem| && Holds(row[id], w, v) ==> Holds(t, w, v)
    ensures Remembers(row[id := t], calls + [Checking(id, mem)])
  {
    var more, after := calls + [Checking(id, mem)], row[id := t];
    assert more[..|more| - 1] == calls;
    forall i | 0 <= i < |after| ensures EntryRemembers(after[i], more, i) {
      assert EntryRemembers(row[i], calls, i);
      forall w: nat | Latest(more, i, w).Some? ensures Holds(after[i], w, Latest(more, i, w).value) {
        if i != id || w >= |mem| { assert Latest(more, i, w) == Latest(calls, i, w); }
      }
    }
  }

  ghost function Appended(a: seq<seq<Carrier>>, b: seq<seq<Carrier>>): (r: seq<seq<Carrier>>)
    requires |a| == |b|
    ensures |r| == |a| && forall i :: 0 <= i < |a| ==> r[i] == a[i] + b[i]
  {
    seq(|a|, i requires 0 <= i < |a| => a[i] + b[i])
  }

  class ActivePe {
    const pe: nat
    var shadow: seq<Entry>
    var dead: seq<bool>                       // which storage PEs are known dead
    ghost var calls: seq<Call>
    ghost var posted: seq<seq<Carrier>>       // to each storage PE

    /** The shadow memory remembers all calls so far, and every live storage PE was sent all of them. */
    ghost predicate Valid()
      reads this
    {
      && CallsFit(calls) && Remembers(shadow, calls) && |posted| == |dead|
      && forall i :: 0 <= i < |dead| && !dead[i] ==> AllPosted(calls, pe, posted[i])
    }

    constructor (pe: nat, storages: nat)
      ensures Valid() && this.pe == pe && calls == [] && dead == seq(storages, _ => false)
    {
      this.pe, shadow, calls := pe, [], [];
      dead, posted := seq(storages, _ => false), seq(storages, _ => []);
    }

    method StorageDied(i: nat)
      requires Valid() && i < |dead|
      modifies `dead
      ensures Valid() && dead == old(dead)[i := true]
    {
      dead := dead[i := true];
    }

    /** A second reservation of an id, whatever its count, changes and sends nothing. */
    method Reserve(id: nat, count: nat, symmetric: bool, garbage: seq<Chunk>) returns (sent: seq<seq<Carrier>>)
      requires Valid() && id <= |shadow|
      requires |garbage| == Space(count) && forall k :: 0 <= k < |garbage| ==> |garbage[k].data| == CARR_DATA_SIZE
      modifies `shadow, `calls, `posted
      ensures Valid() && calls == old(calls) + [Reserving(id, count, symmetric)]
      ensures |sent| == |dead| == |old(posted)| && posted == Appended(old(posted), sent)
      ensures SentFor(Reserving(id, count, symmetric), Parts(old(calls)), sent)
    {
      var isNew := id >= |shadow|;
      ghost var call := Reserving(id, count, symmetric);
      if isNew {
        var e := NewEntry(count, symmetric, garbage);
        ReserveRemembered(shadow, calls, call, e);
        shadow := shadow + [e];
      } else {
        AgainRemembered(shadow, calls, call);
      }
      sent := [];
      for i := 0 to |dead|
        modifies {}
        invariant |sent| == i
        invariant forall k :: 0 <= k < i ==>
                  sent[k] == if isNew && !dead[k] then [Carrier.Reserve(pe, id, count, symmetric)] else []
      {
        sent := sent + [if isNew && !dead[i] then [Carrier.Reserve(pe, id, count, symmetric)] else []];
      }
      AllPostedMore(call, sent);
      posted := Appended(posted, sent);
      CallAdded(calls, call);
      calls := calls + [call];
    }

    method Checkpoint(id: nat, mem: array<int>, count: nat, garbage: seq<int>) returns (sent: seq<seq<Carrier>>)
      requires Valid() && id < |Parts(calls)| && count <= mem.Length && count <= Parts(calls)[id].count
      requires |garbage| == CARR_DATA_SIZE
      modifies `shadow, `calls, `posted
      ensures Valid() && calls == old(calls) + [Checking(id, mem[..count])]
      ensures |sent| == |dead| == |old(posted)| && posted == Appended(old(posted), sent)
      ensures SentFor(Checking(id, mem[..count]), Parts(old(calls)), sent)
    {
      ghost var call := Checking(id, mem[..count]);
      assert EntryRemembers(shadow[id], calls, id);
      var t := FillChunks(shadow[id], Part(shadow[id][0].count, shadow[id][0].symmetric), mem[..count]);
      CheckRemembered(shadow, calls, id, mem[..count], t);
      shadow := shadow[id := t];
      sent := SendToAll(id, mem[..count], Parts(calls), garbage);
      AllPostedMore(call, sent);
      posted := Appended(posted, sent);
      CallAdded(calls, call);
      calls := calls + [call];
    }

    /** What one call sends to each storage PE. */
    ghost predicate SentFor(call: Call, parts: seq<Part>, sent: seq<seq<Carrier>>)
      reads this
    {
      && |sent| == |dead|
      && forall i :: 0 <= i < |dead| ==> if dead[i] then sent[i] == [] else Posts(call, parts, pe, sent[i])
    }

    lemma AllPostedMore(call: Call, sent: seq<seq<Carrier>>)
      requires |posted| == |dead| && SentFor(call, Parts(calls), sent)
      requires forall i :: 0 <= i < |dead| && !dead[i] ==> AllPosted(calls, pe, posted[i])
      ensures forall i :: 0 <= i < |dead| && !dead[i] ==> AllPosted(calls + [call], pe, posted[i] + sent[i])
    {
      forall i | 0 <= i < |dead| && !dead[i] ensures AllPosted(calls + [call], pe, posted[i] + sent[i]) {
        PostMore(calls, pe, posted[i], call, sent[i]);
      }
    }

    method SendToAll(id: nat, words: seq<int>, ghost parts: seq<Part>, garbage: seq<int>)
        returns (sent: seq<seq<Carrier>>)
      requires |garbage| == CARR_DATA_SIZE && id < |parts| && |words| <= parts[id].count
      ensures SentFor(Checking(id, words), parts, sent)
    {
      var data := garbage;
      sent := [];
      for i := 0 to |dead|
        invariant |sent| == i && |data| == CARR_DATA_SIZE
        invariant forall k :: 0 <= k < i ==>
                  if dead[k] then sent[k] == [] else Posts(Checking(id, words), parts, pe, sent[k])
      {
        var carriers := [];
        if !dead[i] {
          carriers, data := SendChunks(pe, id, words, parts, data);
        }
        sent := sent + [carriers];
      }
    }

    /** Every reserved part, `memory[i]`, goes back to its last checkpoint. */
    method Rollback(memory: seq<array<int>>)
      requires Valid() && Separate(memory, calls)
      requires forall i :: 0 <= i < |memory| ==> Covered(calls, i)
      modifies memory
      ensures forall i {:trigger memory[i]} :: 0 <= i < |memory| ==>
                Covered(calls, i) && memory[i].Length == Parts(calls)[i].count
                && memory[i][..] == RolledBack(calls, i, old(memory[i][..]))
      ensures forall i, w {:trigger memory[i][w]} :: 0 <= i < |memory| && 0 <= w < memory[i].Length ==>
                if memory[i].Length % CARR_DATA_SIZE != 0 || w < memory[i].Length - CARR_DATA_SIZE
                then Latest(calls, i, w) == Some(memory[i][w]) else memory[i][w] == old(memory[i][w])
    {
      for i := 0 to |shadow|
        invariant forall k {:trigger memory[k]} :: 0 <= k < i ==>
                  memory[k][..] == RolledBack(calls, k, old(memory[k][..]))
        invariant forall k {:trigger memory[k]} :: i <= k < |memory| ==> memory[k][..] == old(memory[k][..])
      {
        RestorePart(shadow[i], memory[i], calls, i);
      }
      forall i, w | 0 <= i < |memory| && 0 <= w < memory[i].Length
        ensures if memory[i].Length % CARR_DATA_SIZE != 0 || w < memory[i].Length - CARR_DATA_SIZE
                then Latest(calls, i, w) == Some(memory[i][w]) else memory[i][w] == old(memory[i][w])
      {
        RolledBackWord(calls, i, old(memory[i][..]), w);
        assert memory[i][..][w] == memory[i][w];
      }
    }
  }

  lemma CallAdded(calls: seq<Call>, call: Call)
    requires CallsFit(calls) && CallFits(call, Parts(calls))
    ensures CallsFit(calls + [call])
  {
    assert (calls + [call])[..|calls|] == calls;
  }

  /** The reserved parts are different memory, each as long as it was reserved. */
  ghost predicate Separate(memory: seq<array<int>>, calls: seq<Call>) {
    && |memory| == |Parts(calls)|
    && (forall i :: 0 <= i < |memory| ==> memory[i].Length == Parts(calls)[i].count)
    && forall i, k :: 0 <= i < k < |memory| ==> memory[i] != memory[k]
  }

  /** Restores one part from an entry that remembers it. */
  method RestorePart(e: Entry, adr: array<int>, ghost calls: seq<Call>, ghost i: nat)
    requires EntryRemembers(e, calls, i) && Covered(calls, i) && adr.Length == Parts(calls)[i].count
    modifies adr
    ensures adr[..] == RolledBack(calls, i, old(adr[..]))
  {
    forall k | 0 <= k < |e| && k * CARR_DATA_SIZE < adr.Length ensures e[k].offset == k * CARR_DATA_SIZE {
      assert Latest(calls, i, k * CARR_DATA_SIZE).Some?;
      assert k * CARR_DATA_SIZE / CARR_DATA_SIZE == k;
    }
    RestoreEntry(e, adr);
    ghost var n := ReadBack(adr.Length);
    assert Words(e, n) == LastWords(calls, i)[..n];
  }

  // ------------------------------------------------------------ the storage PE

  /** Row p of the table stores the carriers PE p sent, and no carrier came before its reservation. */
  ghost predicate RowOk(table: seq<seq<Entry>>, log: seq<Carrier>, p: int) {
    0 <= p < |table| ==> CarriersFit(From(log, p)) && Stores(table[p], From(log, p))
  }

  ghost predicate TableOk(table: seq<seq<Entry>>, log: seq<Carrier>) {
    forall p {:trigger RowOk(table, log, p)} :: RowOk(table, log, p)
  }

  /** These carriers can be taken after those of the log. */
  ghost predicate InOrder(log: seq<Carrier>, queue: seq<Carrier>, rows: nat) {
    && (forall k :: 0 <= k < |queue| ==> queue[k].pe < rows)
    && forall p: nat {:trigger From(log + queue, p)} :: p < rows ==> CarriersFit(From(log + queue, p))
  }

  lemma NextFits(log: seq<Carrier>, queue: seq<Carrier>, rows: nat, k: nat)
    requires InOrder(log, queue, rows) && k < |queue|
    ensures queue[k].pe < rows
    ensures CarriersFit(From(log + queue[..k], queue[k].pe))
    ensures CarrierFits(queue[k], PartsOf(From(log + queue[..k], queue[k].pe)))
  {
    var p, l := queue[k].pe, log + queue[..k];
    NextTaken(log, queue, k);
    FromPrefix(log + queue, |log| + k + 1, p);
    FitsBehind(From(l, p), queue[k], From(log + queue, p));
  }

  lemma NextTaken(log: seq<Carrier>, queue: seq<Carrier>, k: nat)
    requires k < |queue|
    ensures var l := (log + queue)[..|log| + k + 1];
            From(l, queue[k].pe) == From(log + queue[..k], queue[k].pe) + [queue[k]]
  {
    SplitBehind(log, queue, k);
    OneMore(log + queue[..k], queue[k]);
  }

  lemma SplitBehind<T>(log: seq<T>, queue: seq<T>, k: nat)
    requires k < |queue|
    ensures (log + queue)[..|log| + k + 1] == (log + queue[..k]) + [queue[k]]
  {
  }

  lemma OneMore(l: seq<Carrier>, c: Carrier)
    ensures From(l + [c], c.pe) == From(l, c.pe) + [c]
  {
    assert (l + [c])[..|l|] == l;
  }

  lemma FitsBehind(l: seq<Carrier>, c: Carrier, all: seq<Carrier>)
    requires CarriersFit(all) && l + [c] <= all
    ensures CarriersFit(l) && CarrierFits(c, PartsOf(l))
  {
    FitPrefix(all, |l| + 1);
    assert all[..|l| + 1] == l + [c] && (l + [c])[..|l|] == l;
  }

  /** Storing one PE's carrier in its row keeps the whole table right. */
  lemma RowTaken(table: seq<seq<Entry>>, log: seq<Carrier>, c: Carrier, row: seq<Entry>)
    requires TableOk(table, log) && c.pe < |table|
    requires CarrierFits(c, PartsOf(From(log, c.pe))) && Stores(row, From(log, c.pe) + [c])
    ensures TableOk(table[c.pe := row], log + [c])
  {
    var more, after := log + [c], table[c.pe := row];
    assert more[..|more| - 1] == log;
    assert RowOk(table, log, c.pe);
    var l := From(log, c.pe) + [c];
    assert l[..|l| - 1] == From(log, c.pe);
    forall p ensures RowOk(after, more, p) {
      assert RowOk(table, log, p);
      if 0 <= p < |table| && p != c.pe { assert From(more, p) == From(log, p); }
    }
  }

  class StoragePe {
    var table: seq<seq<Entry>>
    ghost var log: seq<Carrier>      // all carriers taken out of the two rings

    ghost predicate Valid()
      reads this
    {
      TableOk(table, log)
    }

    constructor (active: nat)
      ensures Valid() && log == [] && |table| == active
    {
      table, log := seq(active, _ => []), [];
    }

    /** Takes a reservation out of its ring: the next entry of that PE's row. */
    method TakeReservation(c: Carrier, garbage: seq<Chunk>)
      requires Valid() && c.Reserve? && c.pe < |table| && CarrierFits(c, PartsOf(From(log, c.pe)))
      requires |garbage| == Space(c.count) && forall k :: 0 <= k < |garbage| ==> |garbage[k].data| == CARR_DATA_SIZE
      modifies this
      ensures Valid() && log == old(log) + [c] && |table| == |old(table)|
    {
      var e := NewEntry(c.count, c.symmetric, garbage);
      assert RowOk(table, log, c.pe);
      ReserveStored(table[c.pe], From(log, c.pe), c, e);
      RowTaken(table, log, c, table[c.pe] + [e]);
      table := table[c.pe := table[c.pe] + [e]];
      log := log + [c];
    }

    /** Takes all waiting reservations. */
    method TakeReservations(queue: seq<Carrier>, garbage: seq<seq<Chunk>>)
      requires Valid() && InOrder(log, queue, |table|) && |garbage| == |queue|
      requires forall k :: 0 <= k < |queue| ==> queue[k].Reserve? && |garbage[k]| == Space(queue[k].count)
      requires forall k, i :: 0 <= k < |queue| && 0 <= i < |garbage[k]| ==> |garbage[k][i].data| == CARR_DATA_SIZE
      modifies this
      ensures Valid() && log == old(log) + queue && |table| == |old(table)|
    {
      for head := 0 to |queue|
        invariant Valid() && log == old(log) + queue[..head] && |table| == |old(table)|
      {
        NextFits(old(log), queue, |table|, head);
        TakeReservation(queue[head], garbage[head]);
      }
      assert queue[..|queue|] == queue;
    }

    /** Takes a carrier of a checkpoint: word by word into its chunk. */
    method TakeCarrier(c: Carrier)
      requires Valid() && c.Check? && c.pe < |table| && CarrierFits(c, PartsOf(From(log, c.pe)))
      modifies this
      ensures Valid() && log == old(log) + [c] && |table| == |old(table)|
    {
      assert RowOk(table, log, c.pe);
      assert EntryStores(table[c.pe][c.id], From(log, c.pe), c.id);
      var e := TakeWords(table[c.pe][c.id], c);
      CheckStored(table[c.pe], From(log, c.pe), c, e);
      RowTaken(table, log, c, table[c.pe][c.id := e]);
      table := table[c.pe := table[c.pe][c.id := e]];
      log := log + [c];
    }

    /** Takes all waiting checkpoint carriers. */
    method TakeCheckpoints(queue: seq<Carrier>)
      requires Valid() && InOrder(log, queue, |table|)
      requires forall k :: 0 <= k < |queue| ==> queue[k].Check?
      modifies this
      ensures Valid() && log == old(log) + queue && |table| == |old(table)|
    {
      for head := 0 to |queue|
        invariant Valid() && log == old(log) + queue[..head] && |table| == |old(table)|
      {
        NextFits(old(log), queue, |table|, head);
        TakeCarrier(queue[head]);
      }
      assert queue[..|queue|] == queue;
    }

    /** The storage PE that replaces a dead PE takes over its row as shadow memory and brings its symmetric
        parts back to the last checkpoint; private parts stay as they are. */
    method Replace(deadPe: nat, memory: seq<array<int>>, ghost calls: seq<Call>) returns (shadow: seq<Entry>)
      requires Valid() && deadPe < |table|
      requires CallsFit(calls) && AllPosted(calls, deadPe, From(log, deadPe)) && Separate(memory, calls)
      requires forall i {:trigger Replaceable(calls, i)} :: 0 <= i < |memory| ==> Replaceable(calls, i)
      modifies memory
      ensures Remembers(shadow, calls)
      ensures forall i {:trigger memory[i]} :: 0 <= i < |memory| ==>
                Replaceable(calls, i) && memory[i].Length == Parts(calls)[i].count
                && memory[i][..] == Replaced(calls, i, old(memory[i][..]))
      ensures forall i, w {:trigger memory[i][w]} :: 0 <= i < |memory| && 0 <= w < memory[i].Length ==>
                if Parts(calls)[i].symmetric
                   && (memory[i].Length % CARR_DATA_SIZE != 0 || w < memory[i].Length - CARR_DATA_SIZE)
                then Latest(calls, i, w) == Some(memory[i][w]) else memory[i][w] == old(memory[i][w])
    {
      assert RowOk(table, log, deadPe);
      StoredIsRemembered(table[deadPe], calls, deadPe, From(log, deadPe));
      shadow := TakeOver(table[deadPe], memory, calls);
      forall i, w | 0 <= i < |memory| && 0 <= w < memory[i].Length
        ensures if Parts(calls)[i].symmetric
                   && (memory[i].Length % CARR_DATA_SIZE != 0 || w < memory[i].Length - CARR_DATA_SIZE)
                then Latest(calls, i, w) == Some(memory[i][w]) else memory[i][w] == old(memory[i][w])
      {
        if Parts(calls)[i].symmetric { RolledBackWord(calls, i, old(memory[i][..]), w); }
        assert memory[i][..][w] == memory[i][w];
      }
    }
  }

  method TakeOver(row: seq<Entry>, memory: seq<array<int>>, ghost calls: seq<Call>) returns (shadow: seq<Entry>)
    requires Remembers(row, calls) && Separate(memory, calls)
    requires forall i {:trigger Replaceable(calls, i)} :: 0 <= i < |memory| ==> Replaceable(calls, i)
    modifies memory
    ensures shadow == row
    ensures forall i {:trigger memory[i]} :: 0 <= i < |memory| ==>
              Replaceable(calls, i) && memory[i].Length == Parts(calls)[i].count
              && memory[i][..] == Replaced(calls, i, old(memory[i][..]))
  {
    shadow := [];
    for i := 0 to |row|
      invariant shadow == row[..i]
      invariant forall k {:trigger memory[k]} :: 0 <= k < i ==>
                  Replaceable(calls, k) && memory[k][..] == Replaced(calls, k, old(memory[k][..]))
      invariant forall k {:trigger memory[k]} :: i <= k < |memory| ==> memory[k][..] == old(memory[k][..])
    {
      shadow := shadow + [row[i]];
      assert EntryRemembers(row[i], calls, i) && Replaceable(calls, i);
      ReplacePart(row[i], memory[i], calls, i);
    }
  }

  /** Symmetric parts can be brought back once every word was in some checkpoint. */
  ghost predicate Replaceable(calls: seq<Call>, i: nat) {
    i < |Parts(calls)| && (Parts(calls)[i].symmetric ==> Covered(calls, i))
  }

  /** What the replacement makes of a part that holds `now`. */
  ghost function Replaced(calls: seq<Call>, i: nat, now: seq<int>): (r: seq<int>)
    requires Replaceable(calls, i) && |now| == Parts(calls)[i].count
    ensures |r| == |now|
  {
    if Parts(calls)[i].symmetric then RolledBack(calls, i, now) else now
  }

  method ReplacePart(e: Entry, adr: array<int>, ghost calls: seq<Call>, ghost i: nat)
    requires EntryRemembers(e, calls, i) && Replaceable(calls, i) && adr.Length == Parts(calls)[i].count
    modifies adr
    ensures adr[..] == Replaced(calls, i, old(adr[..]))
  {
    if e[0].symmetric {
      RestorePart(e, adr, calls, i);
    }
  }

  /** The copying loop of a storage PE, with its own test for the number of words. */
  method TakeWords(e: Entry, c: Carrier) returns (t: Entry)
    requires c.Check? && c.offset / CARR_DATA_SIZE < |e|
    requires |c.data| == CARR_DATA_SIZE == |e[c.offset / CARR_DATA_SIZE].data|
             && 0 <= TakenWords(c.count, c.offset) <= CARR_DATA_SIZE
    ensures StoredIn(e, c, t)
  {
    var k := c.offset / CARR_DATA_SIZE;
    t := e[k := e[k].(offset := c.offset)];
    var lastData;
    if c.count <= CARR_DATA_SIZE {
      lastData := c.count;
    } else if c.count - c.offset <= CARR_DATA_SIZE {
      lastData := c.count - c.offset;
    } else {
      lastData := CARR_DATA_SIZE;
    }
    assert c.data[..0] + e[k].data[0..] == e[k].data;
    for i := 0 to lastData
      invariant t == e[k := e[k].(offset := c.offset, data := c.data[..i] + e[k].data[i..])]
    {
      assert (c.data[..i] + e[k].data[i..])[i := c.data[i]] == c.data[..i + 1] + e[k].data[i + 1..];
      t := t[k := t[k].(data := t[k].data[i := c.data[i]])];
    }
  }

  // ------------------------------------------------------------ the whole system

  /** What a storage PE takes out of one of its queues while the active PEs run, as long as no queue is overrun, meets
      the demands of the storing loops: it is of one kind, and fits behind whatever was taken in before. */
  lemma RingDelivers(s: Run.State, r: bool, log: seq<Carrier>, before: seq<Carrier>, queue: seq<Carrier>)
    requires Run.Reached(s) && Run.Shape(s) && !Run.Overrun(s)
    requires s.log == log + queue && Run.Queue(s, r).taken == before + queue
    ensures InOrder(log, queue, |s.calls|) && forall k :: 0 <= k < |queue| ==> queue[k].Reserve? == r
  {
    forall p: nat | p < |s.calls| ensures CarriersFit(From(s.log, p)) { Run.TakenAsSent(s, p); }
    SomePe(s);
    Run.RightKind(s, r);
    forall k | 0 <= k < |queue| ensures queue[k].pe < |s.calls| && queue[k].Reserve? == r {
      assert s.log[|log| + k] == queue[k] && Run.Queue(s, r).taken[|before| + k] == queue[k];
    }
  }

  lemma SomePe(s: Run.State)
    requires Run.Reached(s) && Run.Shape(s) && !Run.Overrun(s)
    ensures Run.KnownPes(s.log, |s.calls|)
  {
    Run.ReachedInv(s);
  }

  /** The storage PE is at the end of a phase of this run, in which the active PE made its calls. */
  ghost predicate InStep(active: ActivePe, storage: StoragePe, s: Run.State)
    reads active, storage
  {
    && Run.Reached(s) && Run.Shape(s) && Run.AtRest(s) && !Run.Overrun(s)
    && active.pe < |s.calls| == |storage.table| && s.calls[active.pe] == active.calls && s.log == storage.log
  }

  /** An active PE and any two storage PEs at the end of a phase, wherever the carriers of other PEs came in
      between: shadow memory and both tables agree on every checkpointed word. */
  lemma Replication(active: ActivePe, one: StoragePe, other: StoragePe, s: Run.State, t: Run.State, i: nat, w: nat)
    requires active.Valid() && one.Valid() && other.Valid() && InStep(active, one, s) && InStep(active, other, t)
    requires i < |Parts(active.calls)| && Latest(active.calls, i, w).Some?
    ensures |active.shadow| == |one.table[active.pe]| == |other.table[active.pe]| == |Parts(active.calls)|
    ensures var v := Latest(active.calls, i, w).value;
            Holds(active.shadow[i], w, v) && Holds(one.table[active.pe][i], w, v)
              && Holds(other.table[active.pe][i], w, v)
  {
    assert RowOk(one.table, one.log, active.pe) && RowOk(other.table, other.log, active.pe);
    Run.RestRemembers(s, active.pe, one.table[active.pe]);
    Run.RestRemembers(t, active.pe, other.table[active.pe]);
    ReplicasAgree(active.shadow, one.table[active.pe], active.calls, i, w);
    ReplicasAgree(active.shadow, other.table[active.pe], active.calls, i, w);
  }
}
