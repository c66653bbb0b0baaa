/** Who still leaves a dissemination barrier that has lost one poke of round 0. */
module DissemLeaves {
  import opened BarrierDissem
  import opened Bits
  import opened Runs

  /** The same barrier with a poke for round 0 of PE h still on its way. */
  ghost function WithPoke(d: State, h: nat): State {
    d.(flight := d.flight + multiset{Increment(h, 0)})
  }

  /** A poke that is lost is a poke that is never delivered. */
  lemma LostOrNeverDelivered(d: State, e: Event, h: nat)
    requires Shape(d) && Enabled(d, e)
    ensures Shape(WithPoke(d, h)) && Enabled(WithPoke(d, h), e)
    ensures Apply(WithPoke(d, h), e) == WithPoke(Apply(d, e), h)
  {
    var lost := multiset{Increment(h, 0)};
    match e
    case Call(p) =>
    case Run(p) => RunAnyway(d, p, h);
    case Deliver(m) => assert (d.flight + lost) - multiset{m} == (d.flight - multiset{m}) + lost;
  }

  lemma RunAnyway(d: State, p: nat, h: nat)
    requires Shape(d) && Enabled(d, Run(p))
    ensures Enabled(WithPoke(d, h), Run(p)) && Apply(WithPoke(d, h), Run(p)) == WithPoke(Apply(d, Run(p)), h)
  {
    if d.pc[p].Poke? && Exp2(d.pc[p].r) < d.n {
      var lost, m := multiset{Increment(h, 0)}, multiset{Increment(Ahead(d.n, p, Exp2(d.pc[p].r)), d.pc[p].r)};
      assert (d.flight + lost) + m == (d.flight + m) + lost;
    }
  }

  /** Everybody has made one call, the poke for h is lost, and nothing more can happen in that call. */
  ghost predicate Over(d: State, h: nat) {
    && Shape(d) && Inv(WithPoke(d, h)) && h < d.n && d.n > 1
    && (forall p :: 0 <= p < d.n ==> d.entered[p] == 1)
    && (forall e {:trigger Enabled(d, e)} :: Enabled(d, e) ==> e.Call?)
  }

  lemma OutOrWaits(d: State, h: nat, x: nat)
    requires Over(d, h) && x < d.n
    ensures d.pc[x] == Out ==> d.left[x] == 1
    ensures d.pc[x] != Out ==> d.pc[x].Wait? && d.pc[x].r < d.rounds && d.left[x] == 0 && d.cell[x][d.pc[x].r] == 0
  {
    assert PeOk(WithPoke(d, h), x) && !Enabled(d, Run(x));
  }

  lemma NothingElseFlies(d: State, h: nat)
    requires Over(d, h)
    ensures d.flight == multiset{}
  {
    if m :| m in d.flight { assert m in WithPoke(d, h).flight && Enabled(d, Deliver(m)); }
  }

  /** Whoever is still inside waits, and unless it is h in round 0, for a PE that waits in an earlier round. */
  lemma WaitsFor(d: State, h: nat, x: nat)
    requires Over(d, h) && x < d.n && d.pc[x] != Out
    ensures d.pc[x].Wait? && Exp2(d.pc[x].r) < d.n
    ensures d.pc[x].r == 0 ==> x == h
    ensures d.pc[x].r > 0 ==>
              var y := Behind(d.n, x, Exp2(d.pc[x].r)); 0 <= y < d.n && d.pc[y].Wait? && d.pc[y].r < d.pc[x].r
  {
    var f := WithPoke(d, h);
    OutOrWaits(d, h, x);
    NothingElseFlies(d, h);
    var r := d.pc[x].r;
    var y := Behind(d.n, x, Exp2(r));
    assert CellOk(f, x, r) && PeOk(f, x) && PeOk(f, y);
    if r > 0 || x != h {
      assert f.flight[Increment(x, r)] == 0 && Sent(f, y, r) == 0;
      OutOrWaits(d, h, y);
    }
  }

  function Rank(pc: Pc): nat { if pc.Wait? then pc.r else 0 }

  /** PE x, waiting in round r, is e places ahead of h, counted round the circle. */
  predicate EvenAhead(n: nat, h: nat, x: nat, r: nat, e: nat, turns: int) {
    e % 2 == 0 && e <= 2 * Exp2(r) - 2 && h + e == x + Turns(turns, n)
  }

  /** So whoever is still inside is an even distance ahead of h. */
  lemma {:induction false} StuckAhead(d: State, h: nat, x: nat) returns (e: nat, turns: int)
    requires Over(d, h) && x < d.n && d.pc[x] != Out
    ensures d.pc[x].Wait? && Exp2(d.pc[x].r) < d.n && EvenAhead(d.n, h, x, d.pc[x].r, e, turns)
    decreases Rank(d.pc[x])
  {
    WaitsFor(d, h, x);
    var r := d.pc[x].r;
    if r == 0 {
      e, turns := 0, 0;
    } else {
      var y := Behind(d.n, x, Exp2(r));
      e, turns := StuckAhead(d, h, y);
      e, turns := FurtherAhead(d.n, h, y, d.pc[y].r, e, turns, x, r);
    }
  }

  lemma FurtherAhead(n: nat, h: nat, y: nat, r1: nat, e1: nat, turns1: int, x: nat, r: nat) returns (e: nat, turns: int)
    requires EvenAhead(n, h, y, r1, e1, turns1) && r1 < r && y == Behind(n, x, Exp2(r))
    ensures EvenAhead(n, h, x, r, e, turns)
  {
    Exp2Between(r1, r);
    e, turns := e1 + Exp2(r), if x >= Exp2(r) then turns1 else turns1 + 1;
    OneTurn(turns1, n);
  }

  function Turns(turns: int, n: nat): int { turns * n }

  lemma OneTurn(turns: int, n: nat)
    ensures Turns(turns + 1, n) == Turns(turns, n) + n
  {
  }

  lemma Exp2Between(a: nat, b: nat)
    requires a < b
    ensures 2 * Exp2(a) <= Exp2(b) && Exp2(b) % 2 == 0
  {
    Exp2Grows(a + 1, b);
  }

  /** The PE next to h for an even number of PEs, the second behind h for an odd number. */
  function Leaver(n: nat, h: nat): int { if n % 2 == 0 then Ahead(n, h, 1) else Behind(n, h, 2) }

  /** It is not an even distance ahead. */
  lemma NotEvenAhead(n: nat, h: nat, e: nat, x: nat, turns: int)
    requires h < n && n > 1 && e % 2 == 0 && e <= 2 * n - 4 && h + e == x + Turns(turns, n)
    ensures x != Leaver(n, h)
  {
    if n % 2 == 0 { EvenTurns(turns, n); } else { FewTurns(turns, n); }
  }

  lemma EvenTurns(turns: int, n: nat)
    requires n % 2 == 0
    ensures Turns(turns, n) % 2 == 0
  {
    var half := n / 2;
    assert turns * n == 2 * (turns * half);
  }

  lemma FewTurns(turns: int, n: nat)
    requires n > 0
    ensures turns <= -1 ==> Turns(turns, n) + n <= 0
    ensures turns == 0 ==> Turns(turns, n) == 0
    ensures turns == 1 ==> Turns(turns, n) == n
    ensures turns >= 2 ==> Turns(turns, n) >= 2 * n
  {
    if turns >= 2 { assert (turns - 2) * n >= 0; }
    if turns <= -1 { assert (-1 - turns) * n >= 0; }
  }

  /** And that PE has left. */
  lemma LeaverHasLeft(d: State, h: nat)
    requires Over(d, h)
    ensures var x := Leaver(d.n, h); 0 <= x < d.n && d.pc[x] == Out && d.left[x] == 1
  {
    AheadIsModulo(d.n, h, 1);
    if d.n % 2 == 1 { AheadIsModulo(d.n, h, 2); }
    var x := Leaver(d.n, h);
    if d.pc[x] != Out {
      var e, turns := StuckAhead(d, h, x);
      NotEvenAhead(d.n, h, e, x, turns);
    } else {
      OutOrWaits(d, h, x);
    }
  }
}
