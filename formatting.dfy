/**
  * The text table of src/formatting.py: rows of cells padded to the widest cell of their column,
  * separated by a '|' gutter, under an optional header and a rule of '-' and '+'.
  */
module Formatting {
  import opened Wrappers
  import opened Text

  /** The ValueError 'arguments list not the same width'. */
  datatype TableError = WidthMismatch

  function Max(a: nat, b: nat): nat {
    if a < b then b else a
  }

  function Spaces(n: nat): string {
    Repeat(' ', n)
  }

  /** '{:<{}}'.format(x, n): x padded on the right with spaces to at least n characters. */
  function Pad(x: string, n: nat): (r: string)
    ensures |r| == Max(|x|, n)
    ensures r[..|x|] == x && forall k :: |x| <= k < |r| ==> r[k] == ' '
  {
    if |x| < n then x + Spaces(n - |x|) else x
  }

  /** gutter + '|' + gutter */
  function Gutter(colpadding: nat): string {
    Spaces(colpadding) + "|" + Spaces(colpadding)
  }

  /** Each cell padded to the size of its column; zip stops at the shorter list. */
  function Cells(args: seq<string>, sizes: seq<nat>): (r: seq<string>)
    requires |args| <= |sizes|
    ensures |r| == |args|
  {
    if args == [] then [] else Cells(args[..|args| - 1], sizes) + [Pad(args[|args| - 1], sizes[|args| - 1])]
  }

  /** Cell i is argument i padded to the size of column i. */
  lemma {:induction false} CellAt(args: seq<string>, sizes: seq<nat>, i: nat)
    requires |args| <= |sizes| && i < |args|
    ensures Cells(args, sizes)[i] == Pad(args[i], sizes[i])
  {
    if i < |args| - 1 {
      CellAt(args[..|args| - 1], sizes, i);
    }
  }

  /** _format_row(args, sizes): the padded cells joined by the gutter; a gutter only goes between two cells. */
  function FormatRow(colpadding: nat, args: seq<string>, sizes: seq<nat>): (r: string)
    requires |args| <= |sizes|
    ensures args == [] ==> r == ""
    ensures |args| == 1 ==> r == Pad(args[0], sizes[0])
  {
    var cs := Cells(args, sizes);
    assert |args| == 1 ==> cs == [Pad(args[0], sizes[0])];
    Join(cs, Gutter(colpadding))
  }

  /** [''] * n */
  function Blanks(n: nat): (r: seq<string>)
    ensures |r| == n && forall i :: 0 <= i < n ==> r[i] == ""
  {
    seq(n, i => "")
  }

  /** The rule character under each character of a row: '+' under '|', '-' under everything else. */
  function Translate(s: string): (r: string)
    ensures |r| == |s| && forall p :: 0 <= p < |s| ==> r[p] == if s[p] == '|' then '+' else '-'
  {
    seq(|s|, p requires 0 <= p < |s| => if s[p] == '|' then '+' else '-')
  }

  /** What _format_rule(sizes) draws: the row of empty cells with '|' turned into '+' and the rest into '-'. */
  function Rule(colpadding: nat, sizes: seq<nat>): (r: string)
    ensures |r| == |FormatRow(colpadding, Blanks(|sizes|), sizes)| == RowWidth(colpadding, sizes, |sizes|)
    ensures forall p :: 0 <= p < |r| ==> r[p] == '+' || r[p] == '-'
  {
    BlanksFit(|sizes|, sizes);
    RowLength(colpadding, Blanks(|sizes|), sizes);
    Translate(FormatRow(colpadding, Blanks(|sizes|), sizes))
  }

  /** Where column i starts in a row whose cells fit: after each earlier column and its gutter. */
  function Offset(colpadding: nat, sizes: seq<nat>, i: nat): nat
    requires i <= |sizes|
  {
    if i == 0 then 0 else Offset(colpadding, sizes, i - 1) + sizes[i - 1] + 2 * colpadding + 1
  }

  /** The length of a row of n fitting cells: where its last column starts plus that column's size. */
  function RowWidth(colpadding: nat, sizes: seq<nat>, n: nat): nat
    requires n <= |sizes|
  {
    if n == 0 then 0 else Offset(colpadding, sizes, n - 1) + sizes[n - 1]
  }

  // ---------------------------------------------------------------- row layout

  /** A row with one more cell: the shorter row, the gutter, the new padded cell. */
  lemma FormatRowSnoc(colpadding: nat, args: seq<string>, sizes: seq<nat>)
    requires 2 <= |args| <= |sizes|
    ensures FormatRow(colpadding, args, sizes)
            == FormatRow(colpadding, args[..|args| - 1], sizes) + Gutter(colpadding) + Pad(args[|args| - 1], sizes[|args| - 1])
  {
    var cs := Cells(args, sizes);
    assert cs[..|cs| - 1] == Cells(args[..|args| - 1], sizes);
  }

  /** Cells that fit their columns. */
  predicate Fits(args: seq<string>, sizes: seq<nat>) {
    |args| <= |sizes| && forall i :: 0 <= i < |args| ==> |args[i]| <= sizes[i]
  }

  lemma FitsPrefix(args: seq<string>, sizes: seq<nat>, k: nat)
    requires Fits(args, sizes) && k <= |args|
    ensures Fits(args[..k], sizes)
  {
  }

  /** A row whose cells fit their columns is exactly as wide as the columns and gutters. */
  lemma {:induction false} RowLength(colpadding: nat, args: seq<string>, sizes: seq<nat>)
    requires Fits(args, sizes)
    ensures |FormatRow(colpadding, args, sizes)| == RowWidth(colpadding, sizes, |args|)
  {
    var n := |args|;
    if n == 1 {
    } else if n >= 2 {
      FitsPrefix(args, sizes, n - 1);
      RowLength(colpadding, args[..n - 1], sizes);
      FormatRowSnoc(colpadding, args, sizes);
      GutterLength(colpadding);
      assert |Pad(args[n - 1], sizes[n - 1])| == sizes[n - 1];
    }
  }

  /** The first k columns of a fitting row end a gutter before column k. */
  lemma RowPrefixWidth(colpadding: nat, args: seq<string>, sizes: seq<nat>)
    requires Fits(args, sizes) && 1 <= |args| < |sizes|
    ensures |FormatRow(colpadding, args, sizes)| + 2 * colpadding + 1 == Offset(colpadding, sizes, |args|)
  {
    RowLength(colpadding, args, sizes);
  }

  lemma SliceLeft(a: string, b: string, lo: nat, hi: nat)
    requires lo <= hi <= |a|
    ensures (a + b)[lo..hi] == a[lo..hi]
  {
  }

  lemma SliceOfPrefix(a: string, b: string, c: string, lo: nat, w: nat, cell: string)
    requires lo + w <= |a| && a[lo..lo + w] == cell
    ensures lo + w <= |a + b + c| && (a + b + c)[lo..lo + w] == cell
  {
    SliceLeft(a + b, c, lo, lo + w);
    SliceLeft(a, b, lo, lo + w);
  }

  lemma SliceRight(a: string, b: string)
    ensures (a + b)[|a|..|a| + |b|] == b
  {
  }

  lemma GutterLength(colpadding: nat)
    ensures |Gutter(colpadding)| == 2 * colpadding + 1
  {
  }

  /** Cell i, padded, sits at the column's offset: the columns of fitting rows line up. */
  lemma {:induction false} RowCell(colpadding: nat, args: seq<string>, sizes: seq<nat>, i: nat)
    requires Fits(args, sizes) && i < |args|
    ensures Offset(colpadding, sizes, i) + sizes[i] <= |FormatRow(colpadding, args, sizes)|
    ensures FormatRow(colpadding, args, sizes)[Offset(colpadding, sizes, i)..Offset(colpadding, sizes, i) + sizes[i]]
            == Pad(args[i], sizes[i])
  {
    var n := |args|;
    if n == 1 {
    } else if i < n - 1 {
      FitsPrefix(args, sizes, n - 1);
      RowCell(colpadding, args[..n - 1], sizes, i);
      RowCellEarlier(colpadding, args, sizes, i);
    } else {
      RowCellLast(colpadding, args, sizes);
    }
  }

  /** A cell before the last one sits where it sat in the row without the last cell. */
  lemma RowCellEarlier(colpadding: nat, args: seq<string>, sizes: seq<nat>, i: nat)
    requires Fits(args, sizes) && 1 < |args| && i < |args| - 1 && Fits(args[..|args| - 1], sizes)
    requires var short := FormatRow(colpadding, args[..|args| - 1], sizes);
      Offset(colpadding, sizes, i) + sizes[i] <= |short|
      && short[Offset(colpadding, sizes, i)..Offset(colpadding, sizes, i) + sizes[i]] == Pad(args[i], sizes[i])
    ensures Offset(colpadding, sizes, i) + sizes[i] <= |FormatRow(colpadding, args, sizes)|
    ensures FormatRow(colpadding, args, sizes)[Offset(colpadding, sizes, i)..Offset(colpadding, sizes, i) + sizes[i]]
            == Pad(args[i], sizes[i])
  {
    var n := |args|;
    var short := FormatRow(colpadding, args[..n - 1], sizes);
    var o := Offset(colpadding, sizes, i);
    FormatRowSnoc(colpadding, args, sizes);
    SliceOfPrefix(short, Gutter(colpadding), Pad(args[n - 1], sizes[n - 1]), o, sizes[i], Pad(args[i], sizes[i]));
  }

  /** The last cell ends the row, after the row of the others and a gutter. */
  lemma RowCellLast(colpadding: nat, args: seq<string>, sizes: seq<nat>)
    requires Fits(args, sizes) && 1 < |args|
    ensures var i := |args| - 1;
      && Offset(colpadding, sizes, i) + sizes[i] == |FormatRow(colpadding, args, sizes)|
      && FormatRow(colpadding, args, sizes)[Offset(colpadding, sizes, i)..] == Pad(args[i], sizes[i])
  {
    var n := |args|;
    var pre := args[..n - 1];
    var last := Pad(args[n - 1], sizes[n - 1]);
    FitsPrefix(args, sizes, n - 1);
    FormatRowSnoc(colpadding, args, sizes);
    RowPrefixWidth(colpadding, pre, sizes);
    GutterLength(colpadding);
    var head := FormatRow(colpadding, pre, sizes) + Gutter(colpadding);
    assert FormatRow(colpadding, args, sizes) == head + last;
    SliceRight(head, last);
  }

  /** A full row that fits is as wide as the rule. */
  lemma FullRowWidth(colpadding: nat, args: seq<string>, sizes: seq<nat>)
    requires Fits(args, sizes) && |args| == |sizes|
    ensures |FormatRow(colpadding, args, sizes)| == RowWidth(colpadding, sizes, |sizes|) == |Rule(colpadding, sizes)|
  {
    RowLength(colpadding, args, sizes);
  }

  // ---------------------------------------------------------------- the rule

  /** The part of the empty row before column k, gutter included. */
  function Before(colpadding: nat, sizes: seq<nat>, k: nat): string
    requires k <= |sizes|
  {
    if k == 0 then "" else FormatRow(colpadding, Blanks(k), sizes) + Gutter(colpadding)
  }

  lemma BlanksFit(k: nat, sizes: seq<nat>)
    requires k <= |sizes|
    ensures Fits(Blanks(k), sizes)
  {
  }

  /** The empty row of k + 1 columns is the part before column k and that column's spaces. */
  lemma BeforeNext(colpadding: nat, sizes: seq<nat>, k: nat)
    requires k < |sizes|
    ensures FormatRow(colpadding, Blanks(k + 1), sizes) == Before(colpadding, sizes, k) + Spaces(sizes[k])
  {
    if k == 0 {
      assert Cells(Blanks(1), sizes) == [Spaces(sizes[0])];
    } else {
      FormatRowSnoc(colpadding, Blanks(k + 1), sizes);
      assert Blanks(k + 1)[..k] == Blanks(k);
    }
  }

  /** The part before column k + 1 extends the part before column k by that column and a gutter. */
  lemma BeforeStep(colpadding: nat, sizes: seq<nat>, k: nat)
    requires k + 1 < |sizes|
    ensures Before(colpadding, sizes, k + 1) == Before(colpadding, sizes, k) + Spaces(sizes[k]) + Gutter(colpadding)
  {
    BeforeNext(colpadding, sizes, k);
  }

  lemma BeforeLength(colpadding: nat, sizes: seq<nat>, k: nat)
    requires k < |sizes|
    ensures |Before(colpadding, sizes, k)| == Offset(colpadding, sizes, k)
  {
    if k > 0 {
      BlanksFit(k, sizes);
      RowPrefixWidth(colpadding, Blanks(k), sizes);
    }
  }

  /** Marking the '|' of one more gutter with '+': the marked prefix grows by that column and gutter. */
  lemma MarkStep(before: string, after: string, b: string, a: nat, colpadding: nat)
    requires |b| + a + 2 * colpadding + 1 <= |before|
    requires before[..|b|] == Translate(b) && forall p :: |b| <= p < |before| ==> before[p] == '-'
    requires after == before[|b| + a + colpadding := '+']
    ensures after[..|b| + a + 2 * colpadding + 1] == Translate(b + Spaces(a) + Gutter(colpadding))
    ensures forall p :: |b| + a + 2 * colpadding + 1 <= p < |after| ==> after[p] == '-'
  {
    var t := Translate(b + Spaces(a) + Gutter(colpadding));
    var e := |b| + a + 2 * colpadding + 1;
    forall p | 0 <= p < e ensures after[p] == t[p] {
      var x := b + Spaces(a) + Gutter(colpadding);
      if p < |b| {
        assert x[p] == b[p];
        assert before[..|b|][p] == before[p];
      } else if p < |b| + a {
        assert x[p] == Spaces(a)[p - |b|];
      } else {
        assert x[p] == Gutter(colpadding)[p - |b| - a];
        if p < |b| + a + colpadding {
          assert Gutter(colpadding)[p - |b| - a] == Spaces(colpadding)[p - |b| - a];
        } else if p > |b| + a + colpadding {
          assert Gutter(colpadding)[p - |b| - a] == Spaces(colpadding)[p - |b| - a - colpadding - 1];
        }
      }
    }
  }

  /** The dashes after the last gutter are the last column's. */
  lemma MarkEnd(r: string, b: string, a: nat)
    requires |r| == |b| + a && r[..|b|] == Translate(b) && forall p :: |b| <= p < |r| ==> r[p] == '-'
    ensures r == Translate(b + Spaces(a))
  {
    var t := Translate(b + Spaces(a));
    forall p | 0 <= p < |r| ensures r[p] == t[p] {
      if p < |b| {
        assert r[..|b|][p] == r[p];
        assert (b + Spaces(a))[p] == b[p];
      } else {
        assert (b + Spaces(a))[p] == Spaces(a)[p - |b|];
      }
    }
  }

  /** Columns start further right the later they come. */
  lemma {:induction false} OffsetMono(colpadding: nat, sizes: seq<nat>, j: nat, k: nat)
    requires j <= k <= |sizes|
    ensures Offset(colpadding, sizes, j) <= Offset(colpadding, sizes, k)
  {
    if j < k {
      OffsetMono(colpadding, sizes, j, k - 1);
    }
  }

  /** Every gutter but the rule's end lies inside the rule. */
  lemma GutterFits(colpadding: nat, sizes: seq<nat>, k: nat)
    requires k + 1 < |sizes|
    ensures Offset(colpadding, sizes, k) + sizes[k] + 2 * colpadding + 1 <= RowWidth(colpadding, sizes, |sizes|)
  {
    OffsetMono(colpadding, sizes, k + 1, |sizes| - 1);
  }

  /** Marking gutter k of a rule marked up to column k marks it up to column k + 1. */
  lemma GutterMarked(before: string, after: string, colpadding: nat, sizes: seq<nat>, k: nat)
    requires k + 1 < |sizes| && Offset(colpadding, sizes, k) + sizes[k] + 2 * colpadding + 1 <= |before|
    requires before[..Offset(colpadding, sizes, k)] == Translate(Before(colpadding, sizes, k))
    requires forall p :: Offset(colpadding, sizes, k) <= p < |before| ==> before[p] == '-'
    requires after == before[Offset(colpadding, sizes, k) + sizes[k] + colpadding := '+']
    ensures Offset(colpadding, sizes, k + 1) <= |after|
    ensures after[..Offset(colpadding, sizes, k + 1)] == Translate(Before(colpadding, sizes, k + 1))
    ensures forall p :: Offset(colpadding, sizes, k + 1) <= p < |after| ==> after[p] == '-'
  {
    var b := Before(colpadding, sizes, k);
    BeforeLength(colpadding, sizes, k);
    BeforeStep(colpadding, sizes, k);
    MarkStep(before, after, b, sizes[k], colpadding);
  }

  /**
    * One step of _format_rule: skip column k and the gutter's padding, put '+' under the '|',
    * skip the rest of the gutter. The marked part of the rule then reaches column k + 1.
    */
  method MarkGutter(rule: array<char>, colpadding: nat, sizes: seq<nat>, k: nat, i: nat) returns (j: nat)
    requires k + 1 < |sizes| && rule.Length == RowWidth(colpadding, sizes, |sizes|)
    requires i == Offset(colpadding, sizes, k) <= rule.Length
    requires rule[..i] == Translate(Before(colpadding, sizes, k))
    requires forall p :: i <= p < rule.Length ==> rule[p] == '-'
    modifies rule
    ensures j == Offset(colpadding, sizes, k + 1) <= rule.Length
    ensures rule[..j] == Translate(Before(colpadding, sizes, k + 1))
    ensures forall p :: j <= p < rule.Length ==> rule[p] == '-'
  {
    GutterFits(colpadding, sizes, k);
    ghost var before := rule[..];
    assert before[..i] == rule[..i];
    j := i + sizes[k] + colpadding;
    rule[j] := '+';
    j := j + 1 + colpadding;
    GutterMarked(before, rule[..], colpadding, sizes, k);
    assert rule[..j] == rule[..][..j];
  }

  /** After the last gutter, the all-dash tail completes the rule. */
  lemma RuleDone(r: string, colpadding: nat, sizes: seq<nat>)
    requires |sizes| > 0 && |r| == RowWidth(colpadding, sizes, |sizes|)
    requires r[..Offset(colpadding, sizes, |sizes| - 1)] == Translate(Before(colpadding, sizes, |sizes| - 1))
    requires forall p :: Offset(colpadding, sizes, |sizes| - 1) <= p < |r| ==> r[p] == '-'
    ensures r == Rule(colpadding, sizes)
  {
    var last := |sizes| - 1;
    BeforeLength(colpadding, sizes, last);
    BeforeNext(colpadding, sizes, last);
    MarkEnd(r, Before(colpadding, sizes, last), sizes[last]);
  }

  // ---------------------------------------------------------------- the whole table

  /** The row-number column, when shown, comes first and is as wide as the number of rows written out. */
  function NumberSizes(showRowNumbers: bool, sizes: seq<nat>, rowCount: nat): seq<nat> {
    if showRowNumbers then [|NatToString(rowCount)|] + sizes else sizes
  }

  function Numbered(showRowNumbers: bool, first: string, row: seq<string>): seq<string> {
    if showRowNumbers then [first] + row else row
  }

  /** A fitting row with a first cell no wider than the number of rows fits once numbered. */
  lemma NumberedFits(showRowNumbers: bool, first: string, count: nat, row: seq<string>, sizes: seq<nat>)
    requires Fits(row, sizes) && |first| <= |NatToString(count)|
    ensures Fits(Numbered(showRowNumbers, first, row), NumberSizes(showRowNumbers, sizes, count))
  {
    if showRowNumbers {
      var nr := [first] + row;
      var ns := [|NatToString(count)|] + sizes;
      forall j | 0 <= j < |nr| ensures |nr[j]| <= ns[j] {
        if j > 0 {
          assert nr[j] == row[j - 1] && ns[j] == sizes[j - 1];
        }
      }
    }
  }

  /** The line of row i: the row, preceded by its number when numbers are shown. */
  function RowLine(colpadding: nat, showRowNumbers: bool, sz: seq<nat>, i: nat, row: seq<string>): string
    requires |row| + (if showRowNumbers then 1 else 0) <= |sz|
  {
    FormatRow(colpadding, Numbered(showRowNumbers, NatToString(i), row), sz) + "\n"
  }

  /** One line per row, in order. */
  function RowLines(colpadding: nat, showRowNumbers: bool, sz: seq<nat>, rows: seq<seq<string>>): string
    requires forall j :: 0 <= j < |rows| ==> |rows[j]| + (if showRowNumbers then 1 else 0) <= |sz|
  {
    if rows == [] then ""
    else
      var i := |rows| - 1;
      RowLines(colpadding, showRowNumbers, sz, rows[..i]) + RowLine(colpadding, showRowNumbers, sz, i, rows[i])
  }

  lemma RowLinesSnoc(colpadding: nat, showRowNumbers: bool, sz: seq<nat>, rows: seq<seq<string>>, i: nat)
    requires i < |rows| && forall j :: 0 <= j < |rows| ==> |rows[j]| + (if showRowNumbers then 1 else 0) <= |sz|
    ensures RowLines(colpadding, showRowNumbers, sz, rows[..i + 1])
            == RowLines(colpadding, showRowNumbers, sz, rows[..i]) + RowLine(colpadding, showRowNumbers, sz, i, rows[i])
  {
    assert rows[..i + 1][..i] == rows[..i];
  }

  lemma ConcatAssoc(a: string, b: string, c: string)
    ensures (a + b) + c == a + (b + c)
  {
  }

  /** The header line and the rule under it, when there are headers. */
  function Head(colpadding: nat, showRowNumbers: bool, sz: seq<nat>, headers: seq<string>): string
    requires |headers| + (if showRowNumbers then 1 else 0) <= |sz|
  {
    if headers == [] then ""
    else FormatRow(colpadding, Numbered(showRowNumbers, "", headers), sz) + "\n" + Rule(colpadding, sz) + "\n"
  }

  /** str(table) before the final rstrip: header and rule when there are headers, then the rows. */
  function Output(colpadding: nat, showRowNumbers: bool, sizes: seq<nat>, headers: seq<string>,
                  rows: seq<seq<string>>): (r: string)
    requires |headers| <= |sizes| && forall j :: 0 <= j < |rows| ==> |rows[j]| <= |sizes|
    ensures r == "" <==> headers == [] && rows == []
    ensures r != "" ==> r[|r| - 1] == '\n'
  {
    var sz := NumberSizes(showRowNumbers, sizes, |rows|);
    Head(colpadding, showRowNumbers, sz, headers) + RowLines(colpadding, showRowNumbers, sz, rows)
  }

  /** The loop of __str__ over the rows: each row, numbered when numbers are shown, on a line of its own. */
  method AppendRows(output: string, colpadding: nat, showRowNumbers: bool, sz: seq<nat>, rows: seq<seq<string>>)
    returns (out: string)
    requires forall j :: 0 <= j < |rows| ==> |rows[j]| + (if showRowNumbers then 1 else 0) <= |sz|
    ensures out == output + RowLines(colpadding, showRowNumbers, sz, rows)
  {
    out := output;
    for i := 0 to |rows|
      invariant out == output + RowLines(colpadding, showRowNumbers, sz, rows[..i])
    {
      var line := RowLine(colpadding, showRowNumbers, sz, i, rows[i]);
      RowLinesSnoc(colpadding, showRowNumbers, sz, rows, i);
      ConcatAssoc(output, RowLines(colpadding, showRowNumbers, sz, rows[..i]), line);
      out := out + line;
    }
    assert rows[..|rows|] == rows;
  }

  /** The largest length of cell i over the lists seen, 0 when there are none. */
  function ColMax(seen: seq<seq<string>>, i: nat): nat
    requires forall r :: r in seen ==> i < |r|
  {
    if seen == [] then 0
    else
      assert forall r :: r in seen[..|seen| - 1] ==> r in seen;
      Max(ColMax(seen[..|seen| - 1], i), |seen[|seen| - 1][i]|)
  }

  /** No cell is wider than its column's maximum. */
  lemma {:induction false} ColMaxBound(seen: seq<seq<string>>, i: nat, r: seq<string>)
    requires (forall x :: x in seen ==> i < |x|) && r in seen
    ensures |r[i]| <= ColMax(seen, i)
  {
    var pre := seen[..|seen| - 1];
    assert forall x :: x in pre ==> x in seen;
    if r != seen[|seen| - 1] {
      assert r in pre;
      ColMaxBound(pre, i, r);
    }
  }

  /** The maximum is the length of some cell once anything has been seen. */
  lemma {:induction false} ColMaxAttained(seen: seq<seq<string>>, i: nat)
    requires (forall x :: x in seen ==> i < |x|) && seen != []
    ensures exists r :: r in seen && |r[i]| == ColMax(seen, i)
  {
    var pre := seen[..|seen| - 1];
    var last := seen[|seen| - 1];
    assert forall x :: x in pre ==> x in seen;
    if pre != [] && ColMax(pre, i) > |last[i]| {
      ColMaxAttained(pre, i);
      var r :| r in pre && |r[i]| == ColMax(pre, i);
      assert r in seen;
    }
  }

  /** _update_sizes(args): the sizes raised to the lengths of the cells; zip stops at the shorter list. */
  function MaxSizes(sizes: seq<nat>, args: seq<string>): (r: seq<nat>)
    requires |args| == |sizes|
    ensures |r| == |sizes| && forall i :: 0 <= i < |sizes| ==> r[i] == Max(sizes[i], |args[i]|)
  {
    seq(|sizes|, i requires 0 <= i < |sizes| => Max(sizes[i], |args[i]|))
  }

  /** A full-width row that was seen keeps every row of full width or empty, and every full-width row seen. */
  lemma RowAppended(rows: seq<seq<string>>, seen: seq<seq<string>>, width: nat, r: seq<string>)
    requires forall x :: x in rows ==> |x| == width || x == []
    requires forall x :: x in rows && |x| == width ==> x in seen
    requires |r| == width && r in seen
    ensures forall x :: x in rows + [r] ==> |x| == width || x == []
    ensures forall x :: x in rows + [r] && |x| == width ==> x in seen
  {
  }

  /**
    * A Table: its width, the size of each column, the rows, the gutter padding, the headers and
    * whether row numbers are shown. seen holds every full-width list of cells given since the
    * width was fixed; the sizes are the column maxima over it.
    */
  class Table {
    var width: nat
    var sizes: seq<nat>
    var rows: seq<seq<string>>
    const colpadding: nat
    var headers: seq<string>
    const showRowNumbers: bool
    ghost var seen: seq<seq<string>>

    ghost predicate Valid()
      reads this
    {
      && |sizes| == width
      && (forall r :: r in rows ==> |r| == width || r == [])
      && (headers == [] || |headers| == width)
      && (forall r :: r in seen ==> |r| == width)
      && (forall r :: r in rows && |r| == width ==> r in seen)
      && (headers != [] ==> headers in seen)
      && forall i :: 0 <= i < width ==> sizes[i] == ColMax(seen, i)
    }

    /** Table(width=..., colpadding=..., show_row_numbers=...) */
    constructor (width: nat, colpadding: nat, showRowNumbers: bool)
      ensures this.width == width && sizes == seq(width, i => 0) && rows == [] && headers == []
      ensures this.colpadding == colpadding && this.showRowNumbers == showRowNumbers && Valid()
    {
      this.width := width;
      sizes := seq(width, i => 0);
      rows := [];
      this.colpadding := colpadding;
      headers := [];
      this.showRowNumbers := showRowNumbers;
      seen := [];
    }

    /** _ensure_width(args): a table without a width takes the width of args; a different width raises. */
    method EnsureWidth(args: seq<string>) returns (err: Option<TableError>)
      requires Valid()
      modifies this
      ensures Valid() && rows == old(rows) && headers == old(headers)
      ensures old(width) == 0 ==> err.None? && width == |args| && sizes == seq(|args|, i => 0)
      ensures old(width) != 0 ==> width == old(width) && sizes == old(sizes) && seen == old(seen)
                                  && (err.Some? <==> |args| != width)
      ensures err.Some? ==> err == Some(WidthMismatch)
      ensures width == |args| ==> err.None?
    {
      if width == 0 {
        width := |args|;
        sizes := seq(width, i => 0);
        if width > 0 {
          seen := [];
        }
      }
      if |args| != width {
        return Some(WidthMismatch);
      }
      err := None;
    }

    /** The sizes after a full-width list is seen are the maxima over the longer history. */
    method Absorb(args: seq<string>)
      requires Valid() && |args| == width
      modifies this
      ensures Valid() && rows == old(rows) && headers == old(headers) && width == old(width)
      ensures sizes == MaxSizes(old(sizes), args) && seen == old(seen) + [args]
    {
      sizes := MaxSizes(sizes, args);
      seen := seen + [args];
      assert seen[..|seen| - 1] == old(seen);
    }

    /**
      * add_row(*args): a row of the table's width (a table without one takes the row's width)
      * raises the column sizes and is appended; no cells at all append a row of empty cells; any
      * other width raises and changes nothing.
      */
    method AddRow(args: seq<string>) returns (err: Option<TableError>)
      requires Valid()
      modifies this
      ensures Valid() && headers == old(headers)
      ensures old(width) != 0 && args != [] && |args| != old(width) ==>
                err == Some(WidthMismatch) && rows == old(rows) && width == old(width) && sizes == old(sizes)
      ensures old(width) != 0 && args == [] ==>
                err.None? && rows == old(rows) + [Blanks(old(width))] && width == old(width) && sizes == old(sizes)
      ensures old(width) == 0 || |args| == old(width) ==>
                && err.None? && rows == old(rows) + [args] && width == |args|
                && sizes == MaxSizes(if old(width) == 0 then seq(|args|, i => 0) else old(sizes), args)
    {
      var e := EnsureWidth(args);
      if e.None? {
        Absorb(args);
        RowAppended(rows, seen, width, args);
        rows := rows + [args];
        return None;
      }
      if args != [] {
        return e;
      }
      var blank := Blanks(width);
      Absorb(blank);
      assert sizes == old(sizes) by {
        assert forall i :: 0 <= i < width ==> sizes[i] == Max(old(sizes)[i], 0);
      }
      RowAppended(rows, seen, width, blank);
      rows := rows + [blank];
      err := None;
    }

    /** set_headers(*args): like a row of the table's width, but kept as the headers; a wrong width raises. */
    method SetHeaders(args: seq<string>) returns (err: Option<TableError>)
      requires Valid()
      modifies this
      ensures Valid() && rows == old(rows)
      ensures old(width) != 0 && |args| != old(width) ==>
                err == Some(WidthMismatch) && headers == old(headers) && width == old(width) && sizes == old(sizes)
      ensures old(width) == 0 || |args| == old(width) ==>
                && err.None? && headers == args && width == |args|
                && sizes == MaxSizes(if old(width) == 0 then seq(|args|, i => 0) else old(sizes), args)
    {
      err := EnsureWidth(args);
      if err.Some? {
        return;
      }
      Absorb(args);
      headers := args;
    }

    /** Every full row and the headers are exactly as wide as the rule. */
    lemma RowsAsWideAsRule(r: seq<string>)
      requires Valid() && |r| == width && (r in rows || r == headers)
      ensures |FormatRow(colpadding, r, sizes)| == RowWidth(colpadding, sizes, width) == |Rule(colpadding, sizes)|
    {
      RowFits(r);
      FullRowWidth(colpadding, r, sizes);
    }

    /** Every full row and the headers fit the column sizes. */
    lemma RowFits(r: seq<string>)
      requires Valid() && |r| == width && (r in rows || r == headers)
      ensures Fits(r, sizes)
    {
      if r == [] {
      } else {
        assert r in seen;
        forall i | 0 <= i < width ensures |r[i]| <= sizes[i] {
          ColMaxBound(seen, i, r);
        }
      }
    }

    /**
      * Each line __str__ writes for a full row, its number in front when numbers are shown, fits
      * the sizes it is formatted with: no row number is wider than the number of rows.
      */
    lemma NumberedRowFits(i: nat)
      requires Valid() && i < |rows| && |rows[i]| == width
      ensures Fits(Numbered(showRowNumbers, NatToString(i), rows[i]), NumberSizes(showRowNumbers, sizes, |rows|))
    {
      RowFits(rows[i]);
      NatToStringMonotone(i, |rows|);
      NumberedFits(showRowNumbers, NatToString(i), |rows|, rows[i], sizes);
    }

    /** The header line, with an empty cell over the row numbers, fits the same sizes. */
    lemma NumberedHeadersFit()
      requires Valid() && headers != []
      ensures Fits(Numbered(showRowNumbers, "", headers), NumberSizes(showRowNumbers, sizes, |rows|))
    {
      RowFits(headers);
      NumberedFits(showRowNumbers, "", |rows|, headers, sizes);
    }

    /** _format_rule(sizes): '-' everywhere, then '+' where each gutter's '|' falls. */
    method FormatRule(sizes: seq<nat>) returns (r: string)
      ensures r == Rule(colpadding, sizes)
    {
      var lineWidth := |FormatRow(colpadding, Blanks(|sizes|), sizes)|;
      assert lineWidth == |Rule(colpadding, sizes)| == RowWidth(colpadding, sizes, |sizes|);
      var rule := new char[lineWidth](_ => '-');
      if |sizes| == 0 {
        return rule[..];
      }
      var i := 0;
      for k := 0 to |sizes| - 1
        invariant i == Offset(colpadding, sizes, k) <= lineWidth && rule[..i] == Translate(Before(colpadding, sizes, k))
        invariant forall p :: i <= p < lineWidth ==> rule[p] == '-'
      {
        i := MarkGutter(rule, colpadding, sizes, k, i);
      }
      assert rule[..][..i] == rule[..i];
      RuleDone(rule[..], colpadding, sizes);
      r := rule[..];
    }

    /** __str__: header, rule and numbered rows, one line each, with trailing whitespace removed. */
    method ToString() returns (s: string)
      requires Valid()
      ensures s == RStrip(Output(colpadding, showRowNumbers, sizes, headers, rows))
    {
      var output := "";
      var sz := NumberSizes(showRowNumbers, sizes, |rows|);
      if headers != [] {
        var hs := Numbered(showRowNumbers, "", headers);
        var line := FormatRow(colpadding, hs, sz);
        var rule := FormatRule(sz);
        output := line + "\n" + rule + "\n";
      }
      assert output == Head(colpadding, showRowNumbers, sz, headers);
      output := AppendRows(output, colpadding, showRowNumbers, sz, rows);
      s := RStrip(output);
    }
  }
}
