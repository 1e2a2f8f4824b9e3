/**
 * `adjust_column_width`: every column of a sheet gets the width of its
 * longest truthy cell value, written out with `str`, plus 2.
 */
module ColumnWidth {
  import Decimal

  /** A cell value as the sheets hold it: nothing, a text, or an integer. */
  datatype Cell = Empty | Text(s: string) | Number(n: int)

  /** `if cell.value:` -- None, "" and 0 are false. */
  predicate Truthy(c: Cell) {
    match c
    case Empty => false
    case Text(s) => s != ""
    case Number(n) => n != 0
  }

  /** `str(cell.value)` for the values that are measured. */
  function Rendered(c: Cell): (s: string)
    ensures Truthy(c) ==> |s| >= 1
  {
    match c
    case Empty => "None"
    case Text(s) => s
    case Number(n) => Decimal.IntToString(n)
  }

  /** What a cell contributes to the maximum: its text length if it is truthy, else nothing. */
  function Contribution(c: Cell): nat {
    if Truthy(c) then |Rendered(c)| else 0
  }

  function Max(a: nat, b: nat): nat {
    if a < b then b else a
  }

  /** What each cell of a column contributes, top to bottom. */
  function Contributions(cells: seq<Cell>): (xs: seq<nat>)
    ensures |xs| == |cells|
  {
    if cells == [] then [] else Contributions(cells[..|cells| - 1]) + [Contribution(cells[|cells| - 1])]
  }

  /** The i-th contribution is that of the i-th cell. */
  lemma {:induction false} ContributionsIndex(cells: seq<Cell>, i: nat)
    requires i < |cells|
    ensures Contributions(cells)[i] == Contribution(cells[i])
  {
    if i < |cells| - 1 {
      ContributionsIndex(cells[..|cells| - 1], i);
    }
  }

  /** The contributions of two runs of cells, one after the other. */
  lemma {:induction false} ContributionsConcat(a: seq<Cell>, b: seq<Cell>)
    ensures Contributions(a + b) == Contributions(a) + Contributions(b)
  {
    if b == [] {
      assert a + b == a;
    } else {
      ContributionsConcat(a, b[..|b| - 1]);
      assert (a + b)[..|a + b| - 1] == a + b[..|b| - 1];
    }
  }

  /** The largest of the first n numbers, 0 when n is 0. */
  function MaxPrefix(xs: seq<nat>, n: nat): nat
    requires n <= |xs|
  {
    if n == 0 then 0 else Max(MaxPrefix(xs, n - 1), xs[n - 1])
  }

  /** The longest rendered truthy value of a column, 0 if it has none. */
  function MaxRenderedLength(cells: seq<Cell>): nat {
    MaxPrefix(Contributions(cells), |cells|)
  }

  /** No one of the first n numbers exceeds their maximum. */
  lemma {:induction false} MaxPrefixBounds(xs: seq<nat>, n: nat)
    requires n <= |xs|
    ensures forall i :: 0 <= i < n ==> xs[i] <= MaxPrefix(xs, n)
  {
    if n > 0 {
      MaxPrefixBounds(xs, n - 1);
    }
  }

  /** The maximum of the first n numbers is one of them, and 0 exactly when they are all 0. */
  lemma {:induction false} MaxPrefixAttained(xs: seq<nat>, n: nat)
    requires n <= |xs|
    ensures MaxPrefix(xs, n) == 0 <==> forall i :: 0 <= i < n ==> xs[i] == 0
    ensures MaxPrefix(xs, n) > 0 ==> exists i :: 0 <= i < n && xs[i] == MaxPrefix(xs, n)
  {
    if n > 0 {
      MaxPrefixAttained(xs, n - 1);
    }
  }

  /** Numbers after the first n do not change the maximum of the first n. */
  lemma {:induction false} MaxPrefixOfPrefix(a: seq<nat>, b: seq<nat>, n: nat)
    requires n <= |a|
    ensures MaxPrefix(a + b, n) == MaxPrefix(a, n)
  {
    if n > 0 {
      MaxPrefixOfPrefix(a, b, n - 1);
      assert (a + b)[n - 1] == a[n - 1];
    }
  }

  /** The first |a| + k numbers of a + b: the larger of the maximum of a and that of the first k of b. */
  lemma {:induction false} MaxPrefixConcat(a: seq<nat>, b: seq<nat>, k: nat)
    requires k <= |b|
    ensures MaxPrefix(a + b, |a| + k) == Max(MaxPrefix(a, |a|), MaxPrefix(b, k))
  {
    if k == 0 {
      MaxPrefixOfPrefix(a, b, |a|);
    } else {
      MaxPrefixConcat(a, b, k - 1);
      assert (a + b)[|a| + k - 1] == b[k - 1];
    }
  }

  /** The maximum of all of a + b is the larger of the maxima of a and of b. */
  lemma MaxPrefixOfWhole(xa: seq<nat>, xb: seq<nat>)
    ensures MaxPrefix(xa + xb, |xa + xb|) == Max(MaxPrefix(xa, |xa|), MaxPrefix(xb, |xb|))
  {
    MaxPrefixConcat(xa, xb, |xb|);
  }

  /** No truthy cell is longer than the maximum. */
  lemma MaxRenderedLengthBounds(cells: seq<Cell>)
    ensures forall i :: 0 <= i < |cells| && Truthy(cells[i]) ==> |Rendered(cells[i])| <= MaxRenderedLength(cells)
  {
    MaxPrefixBounds(Contributions(cells), |cells|);
    forall i | 0 <= i < |cells| {
      ContributionsIndex(cells, i);
    }
  }

  /** The maximum is the length of some truthy cell, and it is 0 exactly when the column has no truthy cell. */
  lemma MaxRenderedLengthAttained(cells: seq<Cell>)
    ensures MaxRenderedLength(cells) == 0 <==> forall i :: 0 <= i < |cells| ==> !Truthy(cells[i])
    ensures MaxRenderedLength(cells) > 0 ==>
      exists i :: 0 <= i < |cells| && Truthy(cells[i]) && |Rendered(cells[i])| == MaxRenderedLength(cells)
  {
    var xs := Contributions(cells);
    MaxPrefixAttained(xs, |cells|);
    forall i | 0 <= i < |cells| {
      ContributionsIndex(cells, i);
    }
    if MaxRenderedLength(cells) > 0 {
      var i :| 0 <= i < |cells| && xs[i] == MaxPrefix(xs, |cells|);
      assert Truthy(cells[i]) && |Rendered(cells[i])| == MaxRenderedLength(cells);
    }
  }

  /** The maximum over two runs of cells is the larger of their maxima. */
  lemma {:induction false} MaxRenderedLengthConcat(a: seq<Cell>, b: seq<Cell>)
    ensures MaxRenderedLength(a + b) == Max(MaxRenderedLength(a), MaxRenderedLength(b))
  {
    var xa, xb := Contributions(a), Contributions(b);
    ContributionsConcat(a, b);
    MaxPrefixOfWhole(xa, xb);
  }

  /** Adding cells to a column never makes it narrower. */
  lemma MaxRenderedLengthMonotone(a: seq<Cell>, b: seq<Cell>)
    ensures MaxRenderedLength(a) <= MaxRenderedLength(a + b)
  {
    MaxRenderedLengthConcat(a, b);
  }

  /** A falsy cell anywhere in a column does not change its width. */
  lemma FalsyCellIgnored(a: seq<Cell>, c: Cell, b: seq<Cell>)
    requires !Truthy(c)
    ensures MaxRenderedLength(a + [c] + b) == MaxRenderedLength(a + b)
  {
    MaxRenderedLengthConcat(a + [c], b);
    MaxRenderedLengthConcat(a, b);
    MaxRenderedLengthConcat(a, [c]);
    assert MaxRenderedLength([c]) == 0 by {
      assert [c][..0] == [];
      assert Contribution(c) == 0;
      assert Contributions([c]) == [] + [0] == [0];
      assert MaxPrefix([0], 1) == Max(MaxPrefix([0], 0), 0) == 0;
    }
  }

  /** The inner loop of `adjust_column_width` for one column: the longest truthy value plus 2. */
  method ColumnWidth(cells: seq<Cell>) returns (width: nat)
    ensures width == MaxRenderedLength(cells) + 2
  {
    var maxLength := 0;
    ghost var xs := Contributions(cells);
    for i := 0 to |cells|
      invariant maxLength == MaxPrefix(xs, i)
    {
      ContributionsIndex(cells, i);
      if Truthy(cells[i]) {
        maxLength := Max(maxLength, |Rendered(cells[i])|);
      }
    }
    width := maxLength + 2;
  }

  /**
   * A worksheet as `adjust_column_width` sees it: its cells column by
   * column (`sheet.columns`), and the widths set so far, by column index
   * (`sheet.column_dimensions[letter].width`).
   */
  class Sheet {
    var columns: seq<seq<Cell>>
    var widths: map<nat, nat>

    constructor (columns: seq<seq<Cell>>)
      ensures this.columns == columns && widths == map[]
    {
      this.columns := columns;
      widths := map[];
    }

    /** `adjust_column_width(sheet)`: every column gets its width; the cells and other widths stay as they were. */
    method AdjustColumnWidths()
      modifies this`widths
      ensures forall c :: 0 <= c < |columns| ==> c in widths && widths[c] == MaxRenderedLength(columns[c]) + 2
      ensures forall c :: c in old(widths) && c >= |columns| ==> c in widths && widths[c] == old(widths)[c]
      ensures forall c :: c in widths ==> c in old(widths) || c < |columns|
    {
      for c := 0 to |columns|
        invariant forall d :: 0 <= d < c ==> d in widths && widths[d] == MaxRenderedLength(columns[d]) + 2
        invariant forall d :: d in old(widths) && d >= c ==> d in widths && widths[d] == old(widths)[d]
        invariant forall d :: d in widths ==> d in old(widths) || d < c
      {
        var width := ColumnWidth(columns[c]);
        widths := widths[c := width];
      }
    }
  }
}
