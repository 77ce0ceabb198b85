/** The cells of a face mask (terrainMesher.js 846-945). The mask is a flat
    array: cell (j, k) of a mask `len1` cells wide lives at index
    k * len1 + j, and a non-zero cell holds a face. */
module Grid {
  import opened Common

  /** Index of the first cell of row k: k * len1, written as repeated
      addition (RowStartMul) so that cell arithmetic stays linear. */
  function RowStart(len1: int, k: int): (r: int)
    ensures 0 <= len1 ==> 0 <= r
    decreases if k < 0 then 0 else k
  {
    if k <= 0 then 0 else RowStart(len1, k - 1) + len1
  }

  lemma {:induction false} RowStartMul(len1: int, k: int)
    requires 0 <= k
    ensures RowStart(len1, k) == k * len1
  {
    if k > 0 {
      RowStartMul(len1, k - 1);
    }
  }

  /** Later rows start at least a row further on. */
  lemma RowStartMono(len1: int, a: int, b: int)
    requires 0 <= a < b && 0 <= len1
    ensures RowStart(len1, a) + len1 <= RowStart(len1, b)
  {
    RowStartMul(len1, a);
    RowStartMul(len1, b);
    MulMono(a + 1, b, len1);
  }

  function Cell(len1: int, j: int, k: int): int
  {
    RowStart(len1, k) + j
  }

  lemma CellInRange(len1: int, len2: int, j: int, k: int)
    requires 0 <= j < len1 && 0 <= k < len2
    ensures 0 <= Cell(len1, j, k) < RowStart(len1, len2)
  {
    RowStartMono(len1, k, len2);
    RowStartMul(len1, k);
  }

  lemma CellInjective(len1: int, j1: int, k1: int, j2: int, k2: int)
    requires 0 <= j1 < len1 && 0 <= j2 < len1 && 0 <= k1 && 0 <= k2
    requires Cell(len1, j1, k1) == Cell(len1, j2, k2)
    ensures j1 == j2 && k1 == k2
  {
    if k1 < k2 {
      RowStartMono(len1, k1, k2);
    } else if k2 < k1 {
      RowStartMono(len1, k2, k1);
    }
  }

  lemma CellShift(len1: int, j: int, k: int, m: int, h: int)
    requires 0 <= k && 0 <= h
    ensures Cell(len1, j, k) + m + h * len1 == Cell(len1, j + m, k + h)
  {
    RowStartMul(len1, k);
    RowStartMul(len1, h);
    RowStartMul(len1, k + h);
    assert (k + h) * len1 == k * len1 + h * len1;
  }

  /** A cell index below the end of row len2 - 1 is a cell of the mask. */
  lemma CellOfBelow(len1: int, len2: int, c: int)
    requires 0 < len1 && 0 <= c < RowStart(len1, len2)
    ensures 0 <= c % len1 < len1 && 0 <= c / len1 < len2
    ensures c == Cell(len1, c % len1, c / len1)
  {
    CellOf(len1, c);
    if 0 <= len2 < c / len1 {
      RowStartMono(len1, len2, c / len1);
    }
  }

  lemma CellOf(len1: int, c: int)
    requires 0 < len1 && 0 <= c
    ensures 0 <= c % len1 < len1 && 0 <= c / len1
    ensures c == Cell(len1, c % len1, c / len1)
  {
    RowStartMul(len1, c / len1);
  }

  /** Mask cell (j, k); reads outside the array give 0. */
  function At(m: seq<int>, len1: int, j: int, k: int): int
  {
    var c := Cell(len1, j, k);
    if 0 <= k && 0 <= c < |m| then m[c] else 0
  }

  /** Number of non-zero cells. */
  function Count(s: seq<int>): nat
  {
    if s == [] then 0 else Count(s[..|s| - 1]) + (if s[|s| - 1] != 0 then 1 else 0)
  }

  lemma {:induction false} CountClear(s: seq<int>, i: int)
    requires 0 <= i < |s| && s[i] != 0
    ensures Count(s[i := 0]) == Count(s) - 1
  {
    var t := s[i := 0];
    if i < |s| - 1 {
      assert t[..|t| - 1] == s[..|s| - 1][i := 0];
      CountClear(s[..|s| - 1], i);
    } else {
      assert t[..|t| - 1] == s[..|s| - 1];
    }
  }

  lemma {:induction false} CountZero(s: seq<int>)
    requires Count(s) == 0
    ensures forall i :: 0 <= i < |s| ==> s[i] == 0
  {
    if s != [] {
      CountZero(s[..|s| - 1]);
      assert forall i :: 0 <= i < |s| - 1 ==> s[i] == s[..|s| - 1][i];
    }
  }

  predicate InBox(j0: int, k0: int, w: int, h: int, j: int, k: int)
  {
    j0 <= j < j0 + w && k0 <= k < k0 + h
  }

  /** The flat cells from (j, row) to (j + w - 1, row) are exactly the cells of
      that row between those columns. */
  lemma RowCells(len1: int, j: int, w: int, row: int, j': int, k': int)
    requires 0 <= j && j + w <= len1 && 0 <= j' < len1 && 0 <= row && 0 <= k'
    ensures Cell(len1, j, row) <= Cell(len1, j', k') < Cell(len1, j, row) + w <==> k' == row && j <= j' < j + w
  {
    if 0 <= k' < row {
      RowStartMono(len1, k', row);
    } else if row < k' {
      RowStartMono(len1, row, k');
    }
  }

  lemma MulSucc(a: int, b: int, c: int)
    requires b == a + 1
    ensures b * c == a * c + c
  {
  }

  /** Row k + hx of the quad ends before row k + h starts. */
  lemma RunBelow(len1: int, j: int, w: int, k: int, hx: int, h: int, start: int)
    requires 0 <= j && 0 <= w && j + w <= len1 && 0 <= k && 0 <= hx < h && start == Cell(len1, j, k + hx)
    ensures start + w <= Cell(len1, 0, k + h)
  {
    if hx + 1 < h {
      RowStartMono(len1, k + hx + 1, k + h);
    }
  }

  /** Before row k + hx of the quad is zeroed, its cells still hold faces. */
  lemma RunHoldsFaces(m: seq<int>, before: seq<int>, len1: int, j: int, k: int, w: int, hx: int, h: int,
                      start: int)
    requires 0 <= j && 1 <= w && j + w <= len1 && 0 <= k && 0 <= hx < h
    requires start == Cell(len1, j, k + hx) && start + w <= |m|
    requires forall j', k' :: InBox(j, k, w, h, j', k') ==> At(before, len1, j', k') != 0
    requires forall j', k' :: 0 <= j' < len1 ==>
      At(m, len1, j', k') == if InBox(j, k, w, hx, j', k') then 0 else At(before, len1, j', k')
    ensures forall c :: start <= c < start + w ==> m[c] != 0
  {
    forall c | start <= c < start + w
      ensures m[c] != 0
    {
      CellOf(len1, c);
      RowCells(len1, j, w, k + hx, c % len1, c / len1);
      assert At(m, len1, c % len1, c / len1) == At(before, len1, c % len1, c / len1);
    }
  }

  /** Zeroing the flat run of row k + hx adds that row to the zeroed part of the quad. */
  lemma RunZeroed(m: seq<int>, m': seq<int>, before: seq<int>, len1: int, j: int, k: int, w: int,
                  hx: int, hxNext: int, start: int)
    requires 0 <= j && j + w <= len1 && 0 <= k && 0 <= hx && hxNext == hx + 1
    requires start == Cell(len1, j, k + hx) && |m'| == |m|
    requires forall c :: 0 <= c < |m| ==> m'[c] == if start <= c < start + w then 0 else m[c]
    requires forall j', k' :: 0 <= j' < len1 ==>
      At(m, len1, j', k') == if InBox(j, k, w, hx, j', k') then 0 else At(before, len1, j', k')
    ensures forall j', k' :: 0 <= j' < len1 ==>
      At(m', len1, j', k') == if InBox(j, k, w, hxNext, j', k') then 0 else At(before, len1, j', k')
  {
    forall j', k' | 0 <= j' < len1
      ensures At(m', len1, j', k') == if InBox(j, k, w, hxNext, j', k') then 0 else At(before, len1, j', k')
    {
      if 0 <= k' {
        RowCells(len1, j, w, k + hx, j', k');
      }
      assert At(m, len1, j', k') == if InBox(j, k, w, hx, j', k') then 0 else At(before, len1, j', k');
    }
  }

  /** The rows of a quad end at or before the end of the mask. */
  lemma RowsBelow(len1: int, len2: int, k: int, h: int)
    requires 0 <= len1 && 0 <= k && 1 <= h <= len2 - k
    ensures Cell(len1, 0, k + h) <= RowStart(len1, len2)
  {
    if k + h < len2 {
      RowStartMono(len1, k + h, len2);
    }
  }

  /** No face cell left: every cell of the mask is zero. */
  lemma AllZero(m: seq<int>, L: int, len1: int, len2: int)
    requires 0 <= len1 && 0 <= len2 && L == RowStart(len1, len2) <= |m| && Count(m[..L]) == 0
    ensures forall c :: 0 <= c < L ==> m[c] == 0
    ensures forall j', k' :: 0 <= j' < len1 && 0 <= k' < len2 ==> At(m, len1, j', k') == 0
  {
    CountZero(m[..L]);
    forall j', k' | 0 <= j' < len1 && 0 <= k' < len2
      ensures At(m, len1, j', k') == 0
    {
      CellInRange(len1, len2, j', k');
      assert m[..L][Cell(len1, j', k')] == 0;
    }
  }
}
