/** The loops of `fresh`, one placement at a time: what the grid holds after each stage of the
    trolls, the four dwarf arms, the extra dwarves and the Thudstone, ending in the starting
    layout of Grids. */
module Setup {
  import opened Coords
  import opened Pieces
  import opened Grids

  /** The troll loops have reached row i, column j: rows 6 .. i - 1 are filled, and row i up to
      column j - 1. */
  predicate TrollPlaced(i: int, j: int, a: int, b: int)
  {
    6 <= a && 6 <= b < 9 && (a < i || (a == i && b < j))
  }

  /** The arm loops have reached arm k, seed n: the arms before k are filled, and arm k up to
      seed n - 1. */
  predicate ArmPlaced(k: nat, n: nat, a: nat, b: nat)
  {
    (0 < k && OnArm(0, a, b)) || (1 < k && OnArm(1, a, b)) || (2 < k && OnArm(2, a, b))
    || (3 < k && OnArm(3, a, b)) || (k < 4 && OnArm(k, a, b) && ArmSeed(k, Pair(a, b)) < n)
  }

  /** The first t of the extra dwarves are placed. */
  predicate ExtraPlaced(t: nat, a: nat, b: nat)
  {
    exists s | 0 <= s < t && s < |Extras| :: Extras[s] == Pair(a, b)
  }

  /** The grid while the trolls are being placed: trolls where the loops have been, empty
      squares elsewhere. */
  ghost predicate TrollStage(g: Grid, i: int, j: int)
  {
    forall a: nat, b: nat | a < 15 && b < 15 :: g[a][b] == if TrollPlaced(i, j, a, b) then Troll else Empty
  }

  /** The grid while the dwarves are being placed: the placed dwarves over the full troll
      block, empty squares elsewhere. */
  ghost predicate DwarfStage(g: Grid, k: nat, n: nat, t: nat)
  {
    forall a: nat, b: nat | a < 15 && b < 15 ::
      g[a][b] == if ArmPlaced(k, n, a, b) || ExtraPlaced(t, a, b) then Dwarf
                 else if TrollBlock(a, b) then Troll
                 else Empty
  }

  /** Before any placement the default board is the first troll stage. */
  lemma StartStage()
    ensures TrollStage(EmptyGrid(), 6, 6)
  {
  }

  /** Placing the troll on (i, j) moves the troll stage on by one column. */
  lemma TrollStep(g: Grid, i: nat, j: nat)
    requires 6 <= i < 9 && 6 <= j < 9 && TrollStage(g, i, j)
    ensures TrollStage(Placed(g, FromPair(i, j), Troll), i, j + 1)
  {
    var h := Placed(g, FromPair(i, j), Troll);
    forall a: nat, b: nat | a < 15 && b < 15
      ensures h[a][b] == if TrollPlaced(i, j + 1, a, b) then Troll else Empty
    {
      if a != i || b != j {
        assert h[a][b] == g[a][b];
      }
    }
  }

  /** A finished row starts the next one. */
  lemma TrollRow(g: Grid, i: nat)
    requires TrollStage(g, i, 9)
    ensures TrollStage(g, i + 1, 6)
  {
    forall a: nat, b: nat | a < 15 && b < 15 ensures TrollPlaced(i, 9, a, b) == TrollPlaced(i + 1, 6, a, b) {
    }
  }

  /** The finished troll block is the first dwarf stage. */
  lemma TrollsDone(g: Grid)
    requires TrollStage(g, 9, 6)
    ensures DwarfStage(g, 0, 0, 0)
  {
    forall a: nat, b: nat | a < 15 && b < 15 ensures !ExtraPlaced(0, a, b) && !ArmPlaced(0, 0, a, b) {
    }
  }

  /** An arm square of the board comes from one seed of that arm, at most 5. */
  lemma SeedBound(k: nat, a: nat, b: nat)
    requires k < 4 && a < 15 && b < 15 && OnArm(k, a, b)
    ensures ArmSeed(k, Pair(a, b)) <= 5 && Arm(k, ArmSeed(k, Pair(a, b))) == Pair(a, b)
  {
    ArmSeedExact(k, Pair(a, b));
  }

  /** Placing the dwarf of arm k, seed n moves the arm stage on by one seed. */
  lemma ArmStep(g: Grid, k: nat, n: nat)
    requires k < 4 && n < 6 && DwarfStage(g, k, n, 0)
    ensures DwarfStage(Placed(g, Arm(k, n), Dwarf), k, n + 1, 0)
  {
    var c := Arm(k, n);
    var h := Placed(g, c, Dwarf);
    ArmSeedExact(k, c);
    forall a: nat, b: nat | a < 15 && b < 15
      ensures ArmPlaced(k, n + 1, a, b) <==> ArmPlaced(k, n, a, b) || Pair(a, b) == c
    {
      if OnArm(k, a, b) {
        SeedBound(k, a, b);
      }
    }
    forall a: nat, b: nat | a < 15 && b < 15 && (a != c.x || b != c.y) ensures h[a][b] == g[a][b] {
    }
  }

  /** A finished arm starts the next one. */
  lemma ArmDone(g: Grid, k: nat)
    requires k < 4 && DwarfStage(g, k, 6, 0)
    ensures DwarfStage(g, k + 1, 0, 0)
  {
    forall a: nat, b: nat | a < 15 && b < 15 ensures ArmPlaced(k, 6, a, b) == ArmPlaced(k + 1, 0, a, b) {
      if OnArm(k, a, b) {
        SeedBound(k, a, b);
      }
    }
  }

  /** Placing extra dwarf t moves the extras stage on by one. */
  lemma ExtraStep(g: Grid, t: nat)
    requires t < |Extras| && DwarfStage(g, 4, 0, t)
    ensures DwarfStage(Placed(g, Extras[t], Dwarf), 4, 0, t + 1)
  {
    var c := Extras[t];
    var h := Placed(g, c, Dwarf);
    forall a: nat, b: nat | a < 15 && b < 15
      ensures ExtraPlaced(t + 1, a, b) <==> ExtraPlaced(t, a, b) || Pair(a, b) == c
    {
      if ExtraPlaced(t + 1, a, b) && Pair(a, b) != c {
        var s :| 0 <= s < t + 1 && s < |Extras| && Extras[s] == Pair(a, b);
        assert s < t;
      }
    }
    forall a: nat, b: nat | a < 15 && b < 15 && (a != c.x || b != c.y) ensures h[a][b] == g[a][b] {
    }
  }

  /** All eight extras placed: exactly the extra squares. */
  lemma ExtrasPlaced(a: nat, b: nat)
    ensures ExtraPlaced(|Extras|, a, b) <==> ExtraSquare(a, b)
  {
    if ExtraSquare(a, b) {
      var s := if a == 0 && b == 6 then 0 else if a == 0 then 1 else if a == 14 && b == 6 then 2
               else if a == 14 then 3 else if a == 6 && b == 0 then 4 else if b == 0 then 5
               else if a == 6 then 6 else 7;
      assert Extras[s] == Pair(a, b);
    }
  }

  /** The Thudstone on the centre of the last dwarf stage gives the starting layout. */
  lemma StoneDone(g: Grid)
    requires DwarfStage(g, 4, 0, |Extras|)
    ensures Placed(g, Center, Thudstone) == FreshGrid()
  {
    var h := Placed(g, Center, Thudstone);
    var f := FreshGrid();
    forall a: nat, b: nat | a < 15 && b < 15 ensures h[a][b] == f[a][b] {
      ExtrasPlaced(a, b);
      assert f[a][b] == FreshSquare(a, b);
      if a != 7 || b != 7 {
        assert h[a][b] == g[a][b];
      }
    }
    forall i | 0 <= i < 15 ensures h[i] == f[i] {
      assert forall j | 0 <= j < 15 :: h[i][j] == f[i][j];
    }
  }
}
