/** The boolean masks of image_processing.py: the four offset scans that
    locate the drawn character inside its image, and pixel counting. */
module Masks {

  /** A height x width grid of cells, row-major (numpy's mask[row, column]). */
  datatype Mask = Mask(height: nat, width: nat, cells: seq<seq<bool>>)

  predicate WellFormed(m: Mask)
  {
    |m.cells| == m.height && forall r :: 0 <= r < |m.cells| ==> |m.cells[r]| == m.width
  }

  /** `any()` of a row or column. */
  predicate AnyTrue(p: seq<bool>)
  {
    exists i :: 0 <= i < |p| && p[i]
  }

  /** mask[r, :] */
  function Row(m: Mask, r: nat): (p: seq<bool>)
    requires WellFormed(m) && r < m.height
    ensures |p| == m.width
  {
    m.cells[r]
  }

  /** mask[:, c] */
  function Column(m: Mask, c: nat): (p: seq<bool>)
    requires WellFormed(m) && c < m.width
    ensures |p| == m.height && forall r :: 0 <= r < m.height ==> p[r] == m.cells[r][c]
  {
    seq(m.height, r requires 0 <= r < m.height => m.cells[r][c])
  }

  /** Some cell of the mask is true (the character is visible at all). */
  predicate NonEmpty(m: Mask)
    requires WellFormed(m)
  {
    exists r, c :: 0 <= r < m.height && 0 <= c < m.width && m.cells[r][c]
  }

  /** For every column, whether it holds a true cell. */
  function ColumnsAny(m: Mask): (p: seq<bool>)
    requires WellFormed(m)
    ensures |p| == m.width && forall c :: 0 <= c < m.width ==> p[c] == AnyTrue(Column(m, c))
  {
    seq(m.width, c requires 0 <= c < m.width => AnyTrue(Column(m, c)))
  }

  /** For every row, whether it holds a true cell. */
  function RowsAny(m: Mask): (p: seq<bool>)
    requires WellFormed(m)
    ensures |p| == m.height && forall r :: 0 <= r < m.height ==> p[r] == AnyTrue(Row(m, r))
  {
    seq(m.height, r requires 0 <= r < m.height => AnyTrue(Row(m, r)))
  }

  /** The first index at or after i holding true, or -1. */
  function FirstFrom(p: seq<bool>, i: nat): (k: int)
    requires i <= |p|
    ensures k == -1 || i <= k < |p|
    decreases |p| - i
  {
    if i == |p| then -1 else if p[i] then i else FirstFrom(p, i + 1)
  }

  /** The scan every offset function performs: the first true index, -1 when there is none. */
  function FirstTrue(p: seq<bool>): int
  {
    FirstFrom(p, 0)
  }

  lemma {:induction false} FirstFromMeaning(p: seq<bool>, i: nat)
    requires i <= |p|
    ensures FirstFrom(p, i) == -1 <==> forall j :: i <= j < |p| ==> !p[j]
    ensures FirstFrom(p, i) >= 0 ==>
              p[FirstFrom(p, i)] && forall j :: i <= j < FirstFrom(p, i) ==> !p[j]
    decreases |p| - i
  {
    if i < |p| && !p[i] {
      FirstFromMeaning(p, i + 1);
    }
  }

  /** FirstTrue is -1 exactly when nothing is true; otherwise it is true there and false before. */
  lemma FirstTrueMeaning(p: seq<bool>)
    ensures -1 <= FirstTrue(p) < |p|
    ensures FirstTrue(p) == -1 <==> !AnyTrue(p)
    ensures FirstTrue(p) >= 0 ==> p[FirstTrue(p)] && forall j :: 0 <= j < FirstTrue(p) ==> !p[j]
  {
    FirstFromMeaning(p, 0);
  }

  /** Counting from the end: the first distance k >= i from the end such
      that p[|p| - 1 - k] is true, or -1. */
  function LastFrom(p: seq<bool>, i: nat): (k: int)
    requires i <= |p|
    ensures k == -1 || i <= k < |p|
    decreases |p| - i
  {
    if i == |p| then -1 else if p[|p| - 1 - i] then i else LastFrom(p, i + 1)
  }

  /** The scan of the right and bottom offsets: how far from the end the last true index lies. */
  function LastTrue(p: seq<bool>): int
  {
    LastFrom(p, 0)
  }

  lemma {:induction false} LastFromMeaning(p: seq<bool>, i: nat)
    requires i <= |p|
    ensures LastFrom(p, i) == -1 <==> forall j :: 0 <= j < |p| - i ==> !p[j]
    ensures var k := LastFrom(p, i);
      k >= 0 ==> p[|p| - 1 - k] && forall j :: |p| - 1 - k < j < |p| - i ==> !p[j]
    decreases |p| - i
  {
    if i < |p| && !p[|p| - 1 - i] {
      LastFromMeaning(p, i + 1);
    }
  }

  /** get_left_offset: the first column holding a true cell. */
  function LeftOffset(m: Mask): int
    requires WellFormed(m)
  {
    FirstTrue(ColumnsAny(m))
  }

  /** get_right_offset: how many columns from the right edge the last true column lies. */
  function RightOffset(m: Mask): int
    requires WellFormed(m)
  {
    LastTrue(ColumnsAny(m))
  }

  /** get_top_offset: the first row holding a true cell. */
  function TopOffset(m: Mask): int
    requires WellFormed(m)
  {
    FirstTrue(RowsAny(m))
  }

  /** get_bottom_offset: how many rows from the bottom edge the last true row lies. */
  function BottomOffset(m: Mask): int
    requires WellFormed(m)
  {
    LastTrue(RowsAny(m))
  }

  /** A true cell makes its column and its row non-empty, and conversely. */
  lemma NonEmptyColumns(m: Mask)
    requires WellFormed(m)
    ensures NonEmpty(m) <==> AnyTrue(ColumnsAny(m))
    ensures NonEmpty(m) <==> AnyTrue(RowsAny(m))
  {
    if NonEmpty(m) {
      var r, c :| 0 <= r < m.height && 0 <= c < m.width && m.cells[r][c];
      assert Column(m, c)[r];
      assert ColumnsAny(m)[c];
      assert Row(m, r)[c];
      assert RowsAny(m)[r];
    }
    if AnyTrue(ColumnsAny(m)) {
      var c :| 0 <= c < m.width && ColumnsAny(m)[c];
      var r :| 0 <= r < m.height && Column(m, c)[r];
      assert m.cells[r][c];
    }
    if AnyTrue(RowsAny(m)) {
      var r :| 0 <= r < m.height && RowsAny(m)[r];
      var c :| 0 <= c < m.width && Row(m, r)[c];
      assert m.cells[r][c];
    }
  }

  /** LastTrue is -1 exactly when nothing is true; otherwise it is the
      distance from the end of the last true index. */
  lemma LastTrueMeaning(p: seq<bool>)
    ensures -1 <= LastTrue(p) < |p|
    ensures LastTrue(p) == -1 <==> !AnyTrue(p)
    ensures var k := LastTrue(p);
      k >= 0 ==> p[|p| - 1 - k] && forall j :: |p| - 1 - k < j < |p| ==> !p[j]
  {
    LastFromMeaning(p, 0);
  }

  /** get_left_offset is -1 exactly for an empty mask; otherwise its column
      holds a true cell and every column before it is all false. */
  lemma LeftOffsetMeaning(m: Mask)
    requires WellFormed(m)
    ensures -1 <= LeftOffset(m) < m.width
    ensures LeftOffset(m) == -1 <==> !NonEmpty(m)
    ensures LeftOffset(m) >= 0 ==>
              AnyTrue(Column(m, LeftOffset(m))) &&
              forall c :: 0 <= c < LeftOffset(m) ==> !AnyTrue(Column(m, c))
  {
    FirstTrueMeaning(ColumnsAny(m));
    NonEmptyColumns(m);
  }

  /** get_right_offset is -1 exactly for an empty mask; otherwise the column
      width - 1 - offset holds a true cell and every column right of it is all false. */
  lemma RightOffsetMeaning(m: Mask)
    requires WellFormed(m)
    ensures -1 <= RightOffset(m) < m.width
    ensures RightOffset(m) == -1 <==> !NonEmpty(m)
    ensures RightOffset(m) >= 0 ==>
              AnyTrue(Column(m, m.width - 1 - RightOffset(m))) &&
              forall c :: m.width - 1 - RightOffset(m) < c < m.width ==> !AnyTrue(Column(m, c))
  {
    LastTrueMeaning(ColumnsAny(m));
    NonEmptyColumns(m);
  }

  /** get_top_offset mirrors get_left_offset over rows. */
  lemma TopOffsetMeaning(m: Mask)
    requires WellFormed(m)
    ensures -1 <= TopOffset(m) < m.height
    ensures TopOffset(m) == -1 <==> !NonEmpty(m)
    ensures TopOffset(m) >= 0 ==>
              AnyTrue(Row(m, TopOffset(m))) &&
              forall r :: 0 <= r < TopOffset(m) ==> !AnyTrue(Row(m, r))
  {
    FirstTrueMeaning(RowsAny(m));
    NonEmptyColumns(m);
  }

  /** get_bottom_offset mirrors get_right_offset over rows. */
  lemma BottomOffsetMeaning(m: Mask)
    requires WellFormed(m)
    ensures -1 <= BottomOffset(m) < m.height
    ensures BottomOffset(m) == -1 <==> !NonEmpty(m)
    ensures BottomOffset(m) >= 0 ==>
              AnyTrue(Row(m, m.height - 1 - BottomOffset(m))) &&
              forall r :: m.height - 1 - BottomOffset(m) < r < m.height ==> !AnyTrue(Row(m, r))
  {
    LastTrueMeaning(RowsAny(m));
    NonEmptyColumns(m);
  }

  /** On a mask with a true cell the four offsets leave a box of at least one
      column and one row: the first true column is not right of the last one. */
  lemma OffsetBounds(m: Mask)
    requires WellFormed(m) && NonEmpty(m)
    ensures 0 <= LeftOffset(m) && 0 <= RightOffset(m) && LeftOffset(m) + RightOffset(m) <= m.width - 1
    ensures 0 <= TopOffset(m) && 0 <= BottomOffset(m) && TopOffset(m) + BottomOffset(m) <= m.height - 1
    ensures m.width - RightOffset(m) - LeftOffset(m) >= 1
    ensures m.height - TopOffset(m) - BottomOffset(m) >= 1
  {
    LeftOffsetMeaning(m);
    RightOffsetMeaning(m);
    TopOffsetMeaning(m);
    BottomOffsetMeaning(m);
  }

  /** On a mask without a true cell all four offsets are the -1 sentinel,
      so the "size" statistics come out as width + 2 and height + 2. */
  lemma EmptyMaskOffsets(m: Mask)
    requires WellFormed(m) && !NonEmpty(m)
    ensures LeftOffset(m) == -1 && RightOffset(m) == -1 && TopOffset(m) == -1 && BottomOffset(m) == -1
    ensures m.width - RightOffset(m) - LeftOffset(m) == m.width + 2
    ensures m.height - TopOffset(m) - BottomOffset(m) == m.height + 2
  {
    LeftOffsetMeaning(m);
    RightOffsetMeaning(m);
    TopOffsetMeaning(m);
    BottomOffsetMeaning(m);
  }

  /** get_left_offset: scan the columns left to right, stop at the first non-empty one. */
  method GetLeftOffset(m: Mask) returns (offset: int)
    requires WellFormed(m)
    ensures offset == LeftOffset(m)
  {
    offset := -1;
    var i := 0;
    while i < m.width
      invariant 0 <= i <= m.width
      invariant FirstFrom(ColumnsAny(m), i) == LeftOffset(m)
    {
      if AnyTrue(Column(m, i)) {
        offset := i;
        break;
      }
      i := i + 1;
    }
  }

  /** get_right_offset: scan the columns right to left, counting from the right edge. */
  method GetRightOffset(m: Mask) returns (offset: int)
    requires WellFormed(m)
    ensures offset == RightOffset(m)
  {
    offset := -1;
    var i := 0;
    while i < m.width
      invariant 0 <= i <= m.width
      invariant LastFrom(ColumnsAny(m), i) == RightOffset(m)
    {
      if AnyTrue(Column(m, m.width - 1 - i)) {
        offset := i;
        break;
      }
      i := i + 1;
    }
  }

  /** get_top_offset: scan the rows top to bottom. */
  method GetTopOffset(m: Mask) returns (offset: int)
    requires WellFormed(m)
    ensures offset == TopOffset(m)
  {
    offset := -1;
    var i := 0;
    while i < m.height
      invariant 0 <= i <= m.height
      invariant FirstFrom(RowsAny(m), i) == TopOffset(m)
    {
      if AnyTrue(Row(m, i)) {
        offset := i;
        break;
      }
      i := i + 1;
    }
  }

  /** get_bottom_offset: scan the rows bottom to top, counting from the bottom edge. */
  method GetBottomOffset(m: Mask) returns (offset: int)
    requires WellFormed(m)
    ensures offset == BottomOffset(m)
  {
    offset := -1;
    var i := 0;
    while i < m.height
      invariant 0 <= i <= m.height
      invariant LastFrom(RowsAny(m), i) == BottomOffset(m)
    {
      if AnyTrue(Row(m, m.height - 1 - i)) {
        offset := i;
        break;
      }
      i := i + 1;
    }
  }

  /** The number of true cells of a row. */
  function CountRow(p: seq<bool>): (n: nat)
    ensures n <= |p|
  {
    if p == [] then 0 else CountRow(p[..|p| - 1]) + (if p[|p| - 1] then 1 else 0)
  }

  /** The number of true cells of the first k rows. */
  function CountRows(m: Mask, k: nat): nat
    requires WellFormed(m) && k <= m.height
  {
    if k == 0 then 0 else CountRows(m, k - 1) + CountRow(Row(m, k - 1))
  }

  /** calculate_pixels_number: `mask.sum()`, the number of true cells. */
  function CountTrue(m: Mask): nat
    requires WellFormed(m)
  {
    CountRows(m, m.height)
  }

  lemma {:induction false} CountRowZero(p: seq<bool>)
    ensures CountRow(p) == 0 <==> !AnyTrue(p)
  {
    if p != [] {
      var q := p[..|p| - 1];
      CountRowZero(q);
      if AnyTrue(p) && !p[|p| - 1] {
        var i :| 0 <= i < |p| && p[i];
        assert q[i];
      }
      if AnyTrue(q) {
        var i :| 0 <= i < |q| && q[i];
        assert p[i];
      }
    }
  }

  lemma {:induction false} CountRowsBounds(m: Mask, k: nat)
    requires WellFormed(m) && k <= m.height
    ensures CountRows(m, k) <= k * m.width
    ensures CountRows(m, k) == 0 <==> forall r :: 0 <= r < k ==> !AnyTrue(Row(m, r))
  {
    if k > 0 {
      CountRowsBounds(m, k - 1);
      CountRowZero(Row(m, k - 1));
      assert k * m.width == (k - 1) * m.width + m.width;
    }
  }

  /** The pixel count is zero exactly on a mask without a true cell, and at
      most the number of cells. */
  lemma CountTrueBounds(m: Mask)
    requires WellFormed(m)
    ensures CountTrue(m) <= m.height * m.width
    ensures CountTrue(m) == 0 <==> !NonEmpty(m)
  {
    CountRowsBounds(m, m.height);
    NonEmptyColumns(m);
    if !NonEmpty(m) {
      assert forall r :: 0 <= r < m.height ==> !RowsAny(m)[r];
    } else {
      var r :| 0 <= r < m.height && RowsAny(m)[r];
      assert AnyTrue(Row(m, r));
    }
  }
}
