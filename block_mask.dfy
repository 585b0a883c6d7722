/**
 * The block variant of random_masking for one sample: a sqL x sqL grid of 0/1 noise
 * filled with a background value, one wL x wL window overwritten with the other value,
 * then flattened row by row to the L noise values argsort ranks.
 */
module BlockMask {
  import opened Util
  import opened Arith
  import opened Reshape

  /** Cell (y, x) lies in the wL x wL window whose top-left corner is row wY, column wX. */
  predicate InWindow(y: int, x: int, wX: int, wY: int, wL: int)
  {
    wY <= y < wY + wL && wX <= x < wX + wL
  }

  /** The window lies inside the grid (the slice assignment then writes every window cell). */
  predicate Fits(sqL: nat, wL: nat, wX: int, wY: int)
  {
    0 <= wX && 0 <= wY && wX + wL <= sqL && wY + wL <= sqL
  }

  /** noise[wY:wY+wL, wX:wX+wL] = fg on a sqL x sqL grid of bg. */
  function Grid(sqL: nat, wL: nat, wX: int, wY: int, bg: int, fg: int): (g: seq<seq<int>>)
    ensures |g| == sqL && forall y :: 0 <= y < sqL ==> |g[y]| == sqL
  {
    seq(sqL, y => seq(sqL, x => if InWindow(y, x, wX, wY, wL) then fg else bg))
  }

  /** The grid reshaped to (L,): row y, column x goes to position y * sqL + x. */
  function Noise(sqL: nat, wL: nat, wX: int, wY: int, bg: int, fg: int): (s: seq<int>)
    ensures |s| == sqL * sqL
  {
    Flatten(Grid(sqL, wL, wX, wY, bg, fg), sqL)
  }

  /** A row that crosses the window: bg left of it, wL cells of fg, bg right of it. */
  function WindowRow(sqL: nat, wL: nat, wX: nat, bg: int, fg: int): (row: seq<int>)
    requires wX + wL <= sqL
    ensures |row| == sqL
  {
    Repeat(bg, wX) + Repeat(fg, wL) + Repeat(bg, sqL - wX - wL)
  }

  /** Noise value i is grid cell (i / sqL, i % sqL): fg inside the window, bg outside it. */
  lemma NoiseAtCell(sqL: nat, wL: nat, wX: int, wY: int, bg: int, fg: int, i: nat)
    requires i < sqL * sqL
    ensures sqL > 0
    ensures Noise(sqL, wL, wX, wY, bg, fg)[i] == if InWindow(i / sqL, i % sqL, wX, wY, wL) then fg else bg
  {
    var y, x := FlattenIndex(Grid(sqL, wL, wX, wY, bg, fg), sqL, i);
    DivModOf(y, x, sqL);
  }

  /** Offsets drawn from randint(sqL - wL) keep the window off the last row and the last column. */
  lemma WindowAwayFromEdge(sqL: nat, wL: nat, wX: int, wY: int, bg: int, fg: int)
    requires 0 <= wX < sqL - wL && 0 <= wY < sqL - wL
    ensures Fits(sqL, wL, wX, wY)
    ensures var g := Grid(sqL, wL, wX, wY, bg, fg);
      forall i :: 0 <= i < sqL ==> g[sqL - 1][i] == bg && g[i][sqL - 1] == bg
  {
  }

  /** The grid is wY background rows, wL window rows and the remaining background rows. */
  lemma GridRows(sqL: nat, wL: nat, wX: nat, wY: nat, bg: int, fg: int)
    requires Fits(sqL, wL, wX, wY)
    ensures Grid(sqL, wL, wX, wY, bg, fg)
         == Repeat(Repeat(bg, sqL), wY) + Repeat(WindowRow(sqL, wL, wX, bg, fg), wL)
            + Repeat(Repeat(bg, sqL), sqL - wY - wL)
  {
    var g := Grid(sqL, wL, wX, wY, bg, fg);
    var rows := Repeat(Repeat(bg, sqL), wY) + Repeat(WindowRow(sqL, wL, wX, bg, fg), wL)
                + Repeat(Repeat(bg, sqL), sqL - wY - wL);
    forall y | 0 <= y < sqL
      ensures g[y] == rows[y]
    {
      if wY <= y < wY + wL {
        assert rows[y] == WindowRow(sqL, wL, wX, bg, fg);
      } else {
        assert rows[y] == Repeat(bg, sqL);
      }
    }
  }

  /** n copies of a row hold n times each of the row's values. */
  lemma {:induction false} RepeatRowsCount(row: seq<int>, n: nat, v: int)
    ensures multiset(Flatten(Repeat(row, n), |row|))[v] == n * multiset(row)[v]
  {
    if n > 0 {
      RepeatRowsCount(row, n - 1, v);
      assert Repeat(row, n)[1..] == Repeat(row, n - 1);
      Peel(n, multiset(row)[v]);
    }
  }

  /** The window holds exactly wL * wL cells of fg and the rest of the grid none. */
  lemma WindowCount(sqL: nat, wL: nat, wX: nat, wY: nat, bg: int, fg: int)
    requires Fits(sqL, wL, wX, wY) && bg != fg
    ensures multiset(Noise(sqL, wL, wX, wY, bg, fg))[fg] == wL * wL
  {
    var blank, win := Repeat(bg, sqL), WindowRow(sqL, wL, wX, bg, fg);
    var top, mid, bottom := Repeat(blank, wY), Repeat(win, wL), Repeat(blank, sqL - wY - wL);
    GridRows(sqL, wL, wX, wY, bg, fg);
    FlattenAppend(top + mid, bottom, sqL);
    FlattenAppend(top, mid, sqL);
    RowCounts(sqL, wL, wX, bg, fg);
    RepeatRowsCount(blank, wY, fg);
    RepeatRowsCount(win, wL, fg);
    RepeatRowsCount(blank, sqL - wY - wL, fg);
    calc {
      multiset(Noise(sqL, wL, wX, wY, bg, fg))[fg];
      multiset(Flatten(top, sqL) + Flatten(mid, sqL) + Flatten(bottom, sqL))[fg];
      multiset(Flatten(top, sqL))[fg] + multiset(Flatten(mid, sqL))[fg] + multiset(Flatten(bottom, sqL))[fg];
      wY * 0 + wL * wL + (sqL - wY - wL) * 0;
    }
  }

  /** A blank row holds no fg; a row across the window holds wL of them. */
  lemma RowCounts(sqL: nat, wL: nat, wX: nat, bg: int, fg: int)
    requires wX + wL <= sqL && bg != fg
    ensures multiset(Repeat(bg, sqL))[fg] == 0
    ensures multiset(WindowRow(sqL, wL, wX, bg, fg))[fg] == wL
  {
    RepeatMultiset(bg, sqL);
    RepeatMultiset(bg, wX);
    RepeatMultiset(fg, wL);
    RepeatMultiset(bg, sqL - wX - wL);
  }

  /** Every value of s is a or b. */
  predicate TwoValued(s: seq<int>, a: int, b: int)
  {
    forall i :: 0 <= i < |s| ==> s[i] == a || s[i] == b
  }

  /** Every noise value is the background or the window value. */
  lemma NoiseTwoValued(sqL: nat, wL: nat, wX: int, wY: int, bg: int, fg: int)
    ensures TwoValued(Noise(sqL, wL, wX, wY, bg, fg), bg, fg)
  {
    var g := Grid(sqL, wL, wX, wY, bg, fg);
    forall k | 0 <= k < sqL * sqL
      ensures Noise(sqL, wL, wX, wY, bg, fg)[k] == bg || Noise(sqL, wL, wX, wY, bg, fg)[k] == fg
    {
      var y, x := FlattenIndex(g, sqL, k);
    }
  }

  /** A sequence of two distinct values holds as many of them together as it is long. */
  lemma {:induction false} TwoValuedCount(s: seq<int>, a: int, b: int)
    requires TwoValued(s, a, b) && a != b
    ensures multiset(s)[a] + multiset(s)[b] == |s|
    ensures forall v :: v != a && v != b ==> multiset(s)[v] == 0
  {
    if |s| > 0 {
      TwoValuedCount(s[1..], a, b);
      assert s == [s[0]] + s[1..];
    }
  }

  /** The zero count the two asserts compare with len_keep: the window for fg == 0, the rest for bg == 0. */
  lemma ZeroCount(sqL: nat, wL: nat, wX: nat, wY: nat, bg: int, fg: int)
    requires Fits(sqL, wL, wX, wY) && ((bg == 1 && fg == 0) || (bg == 0 && fg == 1))
    ensures multiset(Noise(sqL, wL, wX, wY, bg, fg))[0]
         == if fg == 0 then wL * wL else sqL * sqL - wL * wL
  {
    WindowCount(sqL, wL, wX, wY, bg, fg);
    NoiseTwoValued(sqL, wL, wX, wY, bg, fg);
    TwoValuedCount(Noise(sqL, wL, wX, wY, bg, fg), bg, fg);
  }

  // ------------------------------------------------------------ noise.sort()

  /**
   * z zeros followed by n - z ones: the ascending arrangement of a 0/1 sequence with z
   * zeros, and the keep template `mask = ones(n); mask[:z] = 0` of random_masking.
   */
  function SortedBits(z: nat, n: nat): (t: seq<int>)
    requires z <= n
    ensures |t| == n && forall i :: 0 <= i < n ==> t[i] == if i < z then 0 else 1
  {
    Repeat(0, z) + Repeat(1, n - z)
  }

  predicate Ascending(t: seq<int>)
  {
    forall i, j :: 0 <= i < j < |t| ==> t[i] <= t[j]
  }

  /** SortedBits is what noise.sort() returns: ascending, and a rearrangement of the noise. */
  lemma SortedBitsIsSort(s: seq<int>)
    requires TwoValued(s, 0, 1)
    ensures multiset(s)[0] <= |s|
    ensures var t := SortedBits(multiset(s)[0], |s|); Ascending(t) && multiset(t) == multiset(s)
  {
    TwoValuedCount(s, 0, 1);
    var z := multiset(s)[0];
    var t := SortedBits(z, |s|);
    RepeatMultiset(0, z);
    RepeatMultiset(1, |s| - z);
    assert multiset(t) == multiset{}[0 := z] + multiset{}[1 := |s| - z];
    forall v
      ensures multiset(t)[v] == multiset(s)[v]
    {
    }
  }

  /** Any ascending rearrangement of a 0/1 sequence is SortedBits: the sort is unique. */
  lemma SortIsSortedBits(s: seq<int>, t: seq<int>)
    requires TwoValued(s, 0, 1) && Ascending(t) && multiset(t) == multiset(s)
    ensures multiset(s)[0] <= |s| && t == SortedBits(multiset(s)[0], |s|)
  {
    TwoValuedCount(s, 0, 1);
    assert |t| == |multiset(t)| == |s|;
    forall i | 0 <= i < |t|
      ensures t[i] == 0 || t[i] == 1
    {
      assert t[i] in multiset(t);
    }
    AscendingBits(t);
  }

  /** An ascending 0/1 sequence is its zeros followed by its ones. */
  lemma {:induction false} AscendingBits(t: seq<int>)
    requires TwoValued(t, 0, 1) && Ascending(t)
    ensures multiset(t)[0] <= |t| && t == SortedBits(multiset(t)[0], |t|)
  {
    var n := |t|;
    if n > 0 {
      var u := t[..n - 1];
      assert t == u + [t[n - 1]];
      AscendingBits(u);
      if t[n - 1] == 0 {
        assert forall i :: 0 <= i < n ==> t[i] == 0;
        RepeatMultiset(0, n);
        assert t == Repeat(0, n);
      }
    }
  }

  /** The first assert, sort(noise)[:len_keep] == 0, holds exactly when there are at least K zeros. */
  lemma KeptAssert(z: nat, n: nat, k: nat)
    requires z <= n && k <= n
    ensures (forall i :: 0 <= i < k ==> SortedBits(z, n)[i] == 0) <==> k <= z
  {
    if k > z {
      assert SortedBits(z, n)[z] == 1;
    }
  }

  /** The second assert, sort(noise)[len_keep:] == 1, holds exactly when there are at most K zeros. */
  lemma DroppedAssert(z: nat, n: nat, k: nat)
    requires z <= n && k <= n
    ensures (forall i :: k <= i < n ==> SortedBits(z, n)[i] == 1) <==> z <= k
  {
    if z > k {
      assert SortedBits(z, n)[k] == 0;
    }
  }

  // ------------------------------------------------------------ the in-place fill

  /**
   * Builds the block noise as the source does: a sqL x sqL tensor of bg, the window
   * written in place, then the reshape to one row of sqL * sqL values.
   */
  method FillNoise(sqL: nat, wL: nat, wX: nat, wY: nat, bg: int, fg: int) returns (noise: seq<int>)
    requires Fits(sqL, wL, wX, wY)
    ensures noise == Noise(sqL, wL, wX, wY, bg, fg)
  {
    var a := new int[sqL, sqL]((_, _) => bg);
    var y := wY;
    while y < wY + wL
      invariant wY <= y <= wY + wL
      invariant forall r, c :: 0 <= r < sqL && 0 <= c < sqL ==>
        a[r, c] == if wY <= r < y && wX <= c < wX + wL then fg else bg
    {
      var x := wX;
      while x < wX + wL
        invariant wX <= x <= wX + wL
        invariant forall r, c :: 0 <= r < sqL && 0 <= c < sqL ==>
          a[r, c] == if (wY <= r < y && wX <= c < wX + wL) || (r == y && wX <= c < x) then fg else bg
      {
        a[y, x] := fg;
        x := x + 1;
      }
      y := y + 1;
    }
    var g := Grid(sqL, wL, wX, wY, bg, fg);
    assert forall r, c :: 0 <= r < sqL && 0 <= c < sqL ==> a[r, c] == g[r][c];
    noise := [];
    var r := 0;
    while r < sqL
      invariant 0 <= r <= sqL
      invariant noise == Flatten(g[..r], sqL)
      invariant forall r, c :: 0 <= r < sqL && 0 <= c < sqL ==> a[r, c] == g[r][c]
    {
      var row := seq(sqL, c requires 0 <= c < sqL reads a => a[r, c]);
      assert row == g[r];
      FlattenAppend(g[..r], [row], sqL);
      FlattenSingle(row, sqL);
      assert g[..r + 1] == g[..r] + [row];
      noise := noise + row;
      r := r + 1;
    }
    assert g[..sqL] == g;
  }
}
