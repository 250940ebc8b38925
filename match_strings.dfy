/**
 * The alignment engine: a weighted edit distance between two strings,
 * computed over a (|a|+1) x (|b|+1) cost matrix, followed by a walk back
 * from the bottom-right corner that rebuilds the two padded strings and
 * the list of moves.
 *
 * The matrices are specified cell by cell by the ghost functions `Cost`
 * and `Whence`; the walk back is specified by `Align`.  The method
 * `StringsScore` is proved to compute exactly these, and the lemmas below
 * state what the alignment promises about them.
 */
module MatchStrings {

  /** Direction codes stored in the `whence` matrix and in the move list. */
  const LEFT: int := -1
  const TOP: int := 1
  const DIAG: int := 0
  /** Marker stored in whence[0, 0]; the walk back never reads it. */
  const SENTINEL: int := -10000

  /** The result of an alignment: the two padded strings and the moves. */
  datatype Alignment = Alignment(alignedA: string, alignedB: string, directions: seq<int>)

  predicate LengthsAgree(al: Alignment)
  {
    |al.alignedA| == |al.alignedB| == |al.directions|
  }

  /** Cost of aligning x against y: nothing for equal characters, the
      misalignment cost otherwise. */
  function CostChar(x: char, y: char, cMisalignment: real): (r: real)
    ensures x == y ==> r == 0.0
    ensures x != y ==> r == cMisalignment
  {
    if x == y then 0.0 else cMisalignment
  }

  /** The smallest of three values. */
  function Min3(x: real, y: real, z: real): real
  {
    if x <= y && x <= z then x else if y <= z then y else z
  }

  /** The move recorded for an inner cell, given the cost through each of
      the three neighbours: the minimum is compared with the left move
      first, then with the top move.  The left move wins every tie, the top
      move wins a tie with the diagonal, and the diagonal is taken only
      when it is strictly cheaper than both. */
  function Choose(left: real, top: real, diag: real): (d: int)
    ensures d == LEFT <==> left <= top && left <= diag
    ensures d == TOP <==> top < left && top <= diag
    ensures d == DIAG <==> diag < left && diag < top
  {
    var w := Min3(left, top, diag);
    if w == left then LEFT else if w == top then TOP else DIAG
  }

  /** Row 0 of the cost matrix, columns 0..j: one more skip per column. */
  ghost function FirstRow(j: nat, cSkip: real): (r: seq<real>)
    ensures |r| == j + 1
  {
    if j == 0 then [0.0]
    else
      var p := FirstRow(j - 1, cSkip);
      p + [p[j - 1] + cSkip]
  }

  /** Row i of the cost matrix, columns 0..j, computed from the row above
      it; x is the character a[i - 1]. */
  ghost function NextRow(above: seq<real>, x: char, b: string, j: nat, cSkip: real, cMis: real): (r: seq<real>)
    requires j <= |b| && |above| == |b| + 1
    ensures |r| == j + 1
  {
    if j == 0 then [above[0] + cSkip]
    else
      var p := NextRow(above, x, b, j - 1, cSkip, cMis);
      p + [Min3(p[j - 1] + cSkip, above[j] + cSkip, above[j - 1] + CostChar(x, b[j - 1], cMis))]
  }

  /** Rows 0..i of the cost matrix. */
  ghost function Rows(a: string, b: string, i: nat, cSkip: real, cMis: real): (m: seq<seq<real>>)
    requires i <= |a|
    ensures |m| == i + 1
    ensures forall k :: 0 <= k <= i ==> |m[k]| == |b| + 1
  {
    if i == 0 then [FirstRow(|b|, cSkip)]
    else
      var m := Rows(a, b, i - 1, cSkip, cMis);
      m + [NextRow(m[i - 1], a[i - 1], b, |b|, cSkip, cMis)]
  }

  /** Cell (i, j) of the cost matrix: the cheapest way to align a[..i]
      with b[..j]. */
  ghost function Cost(a: string, b: string, i: nat, j: nat, cSkip: real, cMis: real): real
    requires i <= |a| && j <= |b|
  {
    Rows(a, b, |a|, cSkip, cMis)[i][j]
  }

  /** The value the recurrence gives for cell (i, j) from its neighbours:
      the borders add one skip to the previous cell, and an inner cell is
      the minimum of the left move, the top move and the diagonal move. */
  ghost function Recurrence(a: string, b: string, i: nat, j: nat, cSkip: real, cMis: real): real
    requires i <= |a| && j <= |b|
  {
    if i == 0 && j == 0 then 0.0
    else if i == 0 then Cost(a, b, 0, j - 1, cSkip, cMis) + cSkip
    else if j == 0 then Cost(a, b, i - 1, 0, cSkip, cMis) + cSkip
    else Min3(Cost(a, b, i, j - 1, cSkip, cMis) + cSkip,
              Cost(a, b, i - 1, j, cSkip, cMis) + cSkip,
              Cost(a, b, i - 1, j - 1, cSkip, cMis) + CostChar(a[i - 1], b[j - 1], cMis))
  }

  /** Cell (i, j) of the direction matrix: the move recorded there, with
      the left move preferred over the top move, and the top move over the
      diagonal, whenever they tie. */
  ghost function Whence(a: string, b: string, i: nat, j: nat, cSkip: real, cMis: real): int
    requires i <= |a| && j <= |b|
  {
    if i == 0 && j == 0 then SENTINEL
    else if i == 0 then LEFT
    else if j == 0 then TOP
    else
      Choose(Cost(a, b, i, j - 1, cSkip, cMis) + cSkip,
             Cost(a, b, i - 1, j, cSkip, cMis) + cSkip,
             Cost(a, b, i - 1, j - 1, cSkip, cMis) + CostChar(a[i - 1], b[j - 1], cMis))
  }

  /** The whole direction matrix of a and b, as a function of the cell. */
  ghost function Directions(a: string, b: string, cSkip: real, cMis: real): (nat, nat) -> int
  {
    (i: nat, j: nat) => if i <= |a| && j <= |b| then Whence(a, b, i, j, cSkip, cMis) else SENTINEL
  }

  /** One move of the walk back: the column (x over y) it contributes, the
      move itself, and the cell (pi, pj) it comes from. */
  datatype Step = Step(x: char, y: char, d: int, pi: nat, pj: nat)

  /** The move taken at (i, j) of the direction matrix `dir`: a left move
      pairs a skip with b[j - 1], a top move pairs a[i - 1] with a skip,
      and a diagonal move pairs a[i - 1] with b[j - 1]. */
  function StepAt(a: string, b: string, dir: (nat, nat) -> int, i: nat, j: nat, skipChar: char): (s: Step)
    requires i <= |a| && j <= |b| && (i != 0 || j != 0)
    ensures s.d == Move(dir, i, j)
    ensures s.pi + s.pj < i + j
    ensures (s.pi == i && s.x == skipChar) || (0 < i && s.pi == i - 1 && s.x == a[i - 1])
    ensures (s.pj == j && s.y == skipChar) || (0 < j && s.pj == j - 1 && s.y == b[j - 1])
  {
    var d := Move(dir, i, j);
    if d == LEFT then Step(skipChar, b[j - 1], LEFT, i, j - 1)
    else if d == TOP then Step(a[i - 1], skipChar, TOP, i - 1, j)
    else Step(a[i - 1], b[j - 1], DIAG, i - 1, j - 1)
  }

  /** The alignment of a[..i] with b[..j] read back from a direction
      matrix `dir`: each move adds one column at the right end.  The first
      row of the matrix always says LEFT and the first column TOP, so the
      walk never leaves the matrix. */
  ghost function Align(a: string, b: string, dir: (nat, nat) -> int, i: nat, j: nat, skipChar: char): Alignment
    requires i <= |a| && j <= |b|
    decreases i + j
  {
    if i == 0 && j == 0 then Alignment([], [], [])
    else
      var s := StepAt(a, b, dir, i, j, skipChar);
      var p := Align(a, b, dir, s.pi, s.pj, skipChar);
      Alignment(p.alignedA + [s.x], p.alignedB + [s.y], p.directions + [s.d])
  }

  /** The move the walk back takes at (i, j): the borders are fixed, and an
      inner cell holding anything but LEFT or TOP is a diagonal move. */
  function Move(dir: (nat, nat) -> int, i: nat, j: nat): (d: int)
    requires i != 0 || j != 0
    ensures d == LEFT || d == TOP || d == DIAG
    ensures i == 0 ==> d == LEFT
    ensures j == 0 ==> d == TOP
    ensures 0 < i && 0 < j ==> d == (if dir(i, j) == LEFT || dir(i, j) == TOP then dir(i, j) else DIAG)
  {
    if i == 0 then LEFT
    else if j == 0 then TOP
    else if dir(i, j) == LEFT || dir(i, j) == TOP then dir(i, j)
    else DIAG
  }

  /**
   * Fills the cost and direction matrices, reads the optimal cost from the
   * bottom-right cell, and walks back to (0, 0) prepending one column of
   * the alignment per move.
   */
  method StringsScore(a: string, b: string, cSkip: real, cMisalignment: real, skipChar: char)
    returns (optcost: real, a1: string, b1: string, directions: seq<int>)
    ensures optcost == Cost(a, b, |a|, |b|, cSkip, cMisalignment)
    ensures Alignment(a1, b1, directions) == Align(a, b, Directions(a, b, cSkip, cMisalignment), |a|, |b|, skipChar)
  {
    var c, whence := CostMatrices(a, b, cSkip, cMisalignment);

    // read out the optimal cost from the bottom right corner
    optcost := c[|a|, |b|];

    // reconstruct the optimal alignment and the directions
    ghost var dir := Directions(a, b, cSkip, cMisalignment);
    forall i, j | 0 <= i <= |a| && 0 <= j <= |b| && (i != 0 || j != 0)
      ensures whence[i, j] == Move(dir, i, j)
    {
      assert dir(i, j) == Whence(a, b, i, j, cSkip, cMisalignment);
    }
    a1, b1, directions := ReadBack(a, b, whence, dir, skipChar);
  }

  /** The cost matrix c and the direction matrix whence of a and b, filled
      in full. */
  method CostMatrices(a: string, b: string, cSkip: real, cMisalignment: real)
    returns (c: array2<real>, whence: array2<int>)
    ensures c.Length0 == whence.Length0 == |a| + 1 && c.Length1 == whence.Length1 == |b| + 1
    ensures forall i, j :: 0 <= i <= |a| && 0 <= j <= |b| ==>
      c[i, j] == Cost(a, b, i, j, cSkip, cMisalignment) && whence[i, j] == Whence(a, b, i, j, cSkip, cMisalignment)
  {
    var la, lb := |a|, |b|;
    c := new real[la + 1, lb + 1];
    whence := new int[la + 1, lb + 1];
    FillBorders(a, b, cSkip, cMisalignment, c, whence);
    for k1 := 1 to la + 1
      invariant forall i, j :: 0 <= i < k1 && 0 <= j <= lb ==>
        c[i, j] == Cost(a, b, i, j, cSkip, cMisalignment) && whence[i, j] == Whence(a, b, i, j, cSkip, cMisalignment)
      invariant forall i :: k1 <= i <= la ==>
        c[i, 0] == Cost(a, b, i, 0, cSkip, cMisalignment) && whence[i, 0] == Whence(a, b, i, 0, cSkip, cMisalignment)
    {
      FillRow(a, b, cSkip, cMisalignment, c, whence, k1);
    }
  }

  /** The base case: row 0 costs one more skip per column and moves left,
      column 0 one more skip per row and moves up; (0, 0) holds the
      sentinel. */
  method FillBorders(a: string, b: string, cSkip: real, cMisalignment: real, c: array2<real>, whence: array2<int>)
    requires c.Length0 == whence.Length0 == |a| + 1 && c.Length1 == whence.Length1 == |b| + 1
    modifies c, whence
    ensures forall j :: 0 <= j <= |b| ==>
      c[0, j] == Cost(a, b, 0, j, cSkip, cMisalignment) && whence[0, j] == Whence(a, b, 0, j, cSkip, cMisalignment)
    ensures forall i :: 0 <= i <= |a| ==>
      c[i, 0] == Cost(a, b, i, 0, cSkip, cMisalignment) && whence[i, 0] == Whence(a, b, i, 0, cSkip, cMisalignment)
    ensures forall i, j :: 0 < i <= |a| && 0 < j <= |b| ==> c[i, j] == old(c[i, j]) && whence[i, j] == old(whence[i, j])
  {
    for k := 0 to |b| + 1
      invariant forall j :: 0 <= j < k ==> c[0, j] == Cost(a, b, 0, j, cSkip, cMisalignment) && whence[0, j] == LEFT
      invariant forall i, j :: 0 < i <= |a| && 0 < j <= |b| ==> c[i, j] == old(c[i, j]) && whence[i, j] == old(whence[i, j])
    {
      FirstRowCost(a, b, k, cSkip, cMisalignment);
      c[0, k] := (k as real) * cSkip;
      whence[0, k] := LEFT;
    }
    for k := 0 to |a| + 1
      invariant forall j :: 0 < j <= |b| ==> c[0, j] == Cost(a, b, 0, j, cSkip, cMisalignment) && whence[0, j] == LEFT
      invariant forall i :: 0 <= i < k ==> c[i, 0] == Cost(a, b, i, 0, cSkip, cMisalignment) && whence[i, 0] == TOP
      invariant forall i, j :: 0 < i <= |a| && 0 < j <= |b| ==> c[i, j] == old(c[i, j]) && whence[i, j] == old(whence[i, j])
    {
      FirstColumnCost(a, b, k, cSkip, cMisalignment);
      c[k, 0] := (k as real) * cSkip;
      whence[k, 0] := TOP;
    }
    whence[0, 0] := SENTINEL;
  }

  /** Fills the inner cells of row k1 from left to right, each from its
      left, top and diagonal neighbours. */
  method FillRow(a: string, b: string, cSkip: real, cMisalignment: real, c: array2<real>, whence: array2<int>, k1: nat)
    requires c.Length0 == whence.Length0 == |a| + 1 && c.Length1 == whence.Length1 == |b| + 1
    requires 0 < k1 <= |a|
    requires forall i, j :: 0 <= i < k1 && 0 <= j <= |b| ==> c[i, j] == Cost(a, b, i, j, cSkip, cMisalignment)
    requires c[k1, 0] == Cost(a, b, k1, 0, cSkip, cMisalignment)
    modifies c, whence
    ensures forall i, j :: 0 <= i <= |a| && 0 <= j <= |b| && (i != k1 || j == 0) ==>
      c[i, j] == old(c[i, j]) && whence[i, j] == old(whence[i, j])
    ensures forall j :: 0 < j <= |b| ==>
      c[k1, j] == Cost(a, b, k1, j, cSkip, cMisalignment) && whence[k1, j] == Whence(a, b, k1, j, cSkip, cMisalignment)
  {
    for k2 := 1 to |b| + 1
      invariant forall i, j :: 0 <= i <= |a| && 0 <= j <= |b| && (i != k1 || j == 0 || j >= k2) ==>
        c[i, j] == old(c[i, j]) && whence[i, j] == old(whence[i, j])
      invariant forall j :: 0 < j < k2 ==>
        c[k1, j] == Cost(a, b, k1, j, cSkip, cMisalignment) && whence[k1, j] == Whence(a, b, k1, j, cSkip, cMisalignment)
    {
      var wTop := c[k1 - 1, k2] + cSkip;
      var wLeft := c[k1, k2 - 1] + cSkip;
      var wDiag := c[k1 - 1, k2 - 1] + CostChar(a[k1 - 1], b[k2 - 1], cMisalignment);
      CostRecurrence(a, b, k1, k2, cSkip, cMisalignment);
      var w := Min3(wLeft, wTop, wDiag);
      c[k1, k2] := w;
      var d;
      if w == wLeft {
        d := LEFT;
      } else if w == wTop {
        d := TOP;
      } else {
        d := DIAG;
      }
      whence[k1, k2] := d;
    }
  }

  /**
   * The walk back of strings_score: from the bottom-right corner of the
   * direction matrix to (0, 0), prepending at each cell the column its
   * move contributes and the move itself.
   */
  method ReadBack(a: string, b: string, whence: array2<int>, ghost dir: (nat, nat) -> int, skipChar: char)
    returns (a1: string, b1: string, directions: seq<int>)
    requires whence.Length0 == |a| + 1 && whence.Length1 == |b| + 1
    requires forall i, j :: 0 <= i <= |a| && 0 <= j <= |b| && (i != 0 || j != 0) ==> whence[i, j] == Move(dir, i, j)
    ensures Alignment(a1, b1, directions) == Align(a, b, dir, |a|, |b|, skipChar)
  {
    a1, b1, directions := "", "", [];
    var k1: nat, k2: nat := |a|, |b|;
    while k1 != 0 || k2 != 0
      invariant k1 <= |a| && k2 <= |b|
      invariant var p := Align(a, b, dir, k1, k2, skipChar);
        Align(a, b, dir, |a|, |b|, skipChar)
          == Alignment(p.alignedA + a1, p.alignedB + b1, p.directions + directions)
      decreases k1 + k2
    {
      var d := whence[k1, k2];
      var x, y, i', j';
      if d == LEFT {
        x, y, i', j' := skipChar, b[k2 - 1], k1, k2 - 1;
      } else if d == TOP {
        x, y, i', j' := a[k1 - 1], skipChar, k1 - 1, k2;
      } else {
        x, y, i', j' := a[k1 - 1], b[k2 - 1], k1 - 1, k2 - 1;
      }
      ghost var p := Align(a, b, dir, i', j', skipChar);
      assert StepAt(a, b, dir, k1, k2, skipChar) == Step(x, y, d, i', j');
      AppendColumn(p, x, y, d, a1, b1, directions);
      a1, b1, directions := [x] + a1, [y] + b1, [d] + directions;
      k1, k2 := i', j';
    }
  }

  /** Moving one column from the front of the suffix to the end of the
      prefix leaves the whole alignment as it was. */
  lemma AppendColumn(p: Alignment, x: char, y: char, d: int, a1: string, b1: string, directions: seq<int>)
    ensures Alignment(p.alignedA + [x] + a1, p.alignedB + [y] + b1, p.directions + [d] + directions)
         == Alignment(p.alignedA + ([x] + a1), p.alignedB + ([y] + b1), p.directions + ([d] + directions))
  {
    assert p.alignedA + [x] + a1 == p.alignedA + ([x] + a1);
    assert p.alignedB + [y] + b1 == p.alignedB + ([y] + b1);
    assert p.directions + [d] + directions == p.directions + ([d] + directions);
  }

  lemma {:induction false} FirstRowCell(J: nat, j: nat, cSkip: real)
    requires j <= J
    ensures FirstRow(J, cSkip)[j] == if j == 0 then 0.0 else FirstRow(J, cSkip)[j - 1] + cSkip
  {
    if j < J {
      FirstRowCell(J - 1, j, cSkip);
    }
  }

  lemma {:induction false} NextRowCell(above: seq<real>, x: char, b: string, J: nat, j: nat, cSkip: real, cMis: real)
    requires j <= J <= |b| && |above| == |b| + 1
    ensures var r := NextRow(above, x, b, J, cSkip, cMis);
            r[j] == if j == 0 then above[0] + cSkip
                    else Min3(r[j - 1] + cSkip, above[j] + cSkip, above[j - 1] + CostChar(x, b[j - 1], cMis))
  {
    if j < J {
      NextRowCell(above, x, b, J - 1, j, cSkip, cMis);
    }
  }

  lemma {:induction false} RowsStable(a: string, b: string, n: nat, k: nat, cSkip: real, cMis: real)
    requires k <= n <= |a|
    ensures Rows(a, b, n, cSkip, cMis)[k] == Rows(a, b, k, cSkip, cMis)[k]
  {
    if k < n {
      RowsStable(a, b, n - 1, k, cSkip, cMis);
    }
  }

  /** Every cell of the cost matrix is what the recurrence computes from
      its neighbours: the borders hold j and i skips, and every inner cell
      is the minimum of top + skip, left + skip and diagonal + character
      cost. */
  lemma CostRecurrence(a: string, b: string, i: nat, j: nat, cSkip: real, cMis: real)
    requires i <= |a| && j <= |b|
    ensures Cost(a, b, i, j, cSkip, cMis) == Recurrence(a, b, i, j, cSkip, cMis)
  {
    var m := Rows(a, b, |a|, cSkip, cMis);
    RowsStable(a, b, |a|, i, cSkip, cMis);
    if i == 0 {
      FirstRowCell(|b|, j, cSkip);
    } else {
      RowsStable(a, b, |a|, i - 1, cSkip, cMis);
      assert m[i] == NextRow(m[i - 1], a[i - 1], b, |b|, cSkip, cMis);
      NextRowCell(m[i - 1], a[i - 1], b, |b|, j, cSkip, cMis);
    }
  }

  /** Every inner cell is the minimum of the three moves into it, and its
      recorded direction follows the tie-break of `Choose`. */
  lemma CellIsMinimum(a: string, b: string, i: nat, j: nat, cSkip: real, cMis: real)
    requires 0 < i <= |a| && 0 < j <= |b|
    ensures var left := Cost(a, b, i, j - 1, cSkip, cMis) + cSkip;
            var top := Cost(a, b, i - 1, j, cSkip, cMis) + cSkip;
            var diag := Cost(a, b, i - 1, j - 1, cSkip, cMis) + CostChar(a[i - 1], b[j - 1], cMis);
            var w := Cost(a, b, i, j, cSkip, cMis);
            && w <= left && w <= top && w <= diag
            && (w == left || w == top || w == diag)
            && Whence(a, b, i, j, cSkip, cMis) == Choose(left, top, diag)
  {
    CostRecurrence(a, b, i, j, cSkip, cMis);
  }

  /** The first row of the cost matrix holds j skips in column j. */
  lemma {:induction false} FirstRowCost(a: string, b: string, j: nat, cSkip: real, cMis: real)
    requires j <= |b|
    ensures Cost(a, b, 0, j, cSkip, cMis) == (j as real) * cSkip
  {
    CostRecurrence(a, b, 0, j, cSkip, cMis);
    if j > 0 {
      FirstRowCost(a, b, j - 1, cSkip, cMis);
      assert (j as real) * cSkip == ((j - 1) as real) * cSkip + cSkip;
    }
  }

  /** The first column of the cost matrix holds i skips in row i. */
  lemma {:induction false} FirstColumnCost(a: string, b: string, i: nat, cSkip: real, cMis: real)
    requires i <= |a|
    ensures Cost(a, b, i, 0, cSkip, cMis) == (i as real) * cSkip
  {
    CostRecurrence(a, b, i, 0, cSkip, cMis);
    if i > 0 {
      FirstColumnCost(a, b, i - 1, cSkip, cMis);
      assert (i as real) * cSkip == ((i - 1) as real) * cSkip + cSkip;
    }
  }

  lemma PrefixSnoc(s: string, n: nat)
    requires 0 < n <= |s|
    ensures s[..n] == s[..n - 1] + [s[n - 1]]
  {
  }

  /** Repeat(x, n) is n copies of x. */
  function Repeat<T>(x: T, n: nat): (r: seq<T>)
    ensures |r| == n
    ensures forall k :: 0 <= k < n ==> r[k] == x
  {
    if n == 0 then [] else Repeat(x, n - 1) + [x]
  }

  /** Against an empty first string the walk back only moves left: the
      first side is all skip characters and the second is b itself. */
  lemma {:induction false} AlignEmptyFirst(a: string, b: string, dir: (nat, nat) -> int, j: nat, skipChar: char)
    requires j <= |b|
    ensures Align(a, b, dir, 0, j, skipChar) == Alignment(Repeat(skipChar, j), b[..j], Repeat(LEFT, j))
  {
    if j > 0 {
      AlignEmptyFirst(a, b, dir, j - 1, skipChar);
      PrefixSnoc(b, j);
    }
  }

  /** Against an empty second string the walk back only moves up: the
      first side is a itself and the second is all skip characters. */
  lemma {:induction false} AlignEmptySecond(a: string, b: string, dir: (nat, nat) -> int, i: nat, skipChar: char)
    requires i <= |a|
    ensures Align(a, b, dir, i, 0, skipChar) == Alignment(a[..i], Repeat(skipChar, i), Repeat(TOP, i))
  {
    if i > 0 {
      AlignEmptySecond(a, b, dir, i - 1, skipChar);
      PrefixSnoc(a, i);
    }
  }

  /** The two padded strings and the move list have the same length, which
      lies between the longer input's length and the sum of both. */
  lemma {:induction false} AlignedLengths(a: string, b: string, dir: (nat, nat) -> int, i: nat, j: nat, skipChar: char)
    requires i <= |a| && j <= |b|
    ensures var al := Align(a, b, dir, i, j, skipChar);
            && LengthsAgree(al)
            && i <= |al.directions| && j <= |al.directions|
            && |al.directions| <= i + j
    decreases i + j
  {
    if i != 0 || j != 0 {
      var s := StepAt(a, b, dir, i, j, skipChar);
      AlignedLengths(a, b, dir, s.pi, s.pj, skipChar);
    }
  }

  /** s with every occurrence of skipChar deleted. */
  function Erase(s: string, skipChar: char): string
  {
    if s == [] then []
    else Erase(s[..|s| - 1], skipChar) + (if s[|s| - 1] == skipChar then [] else [s[|s| - 1]])
  }

  lemma EraseAppend(s: string, x: char, skipChar: char)
    ensures Erase(s + [x], skipChar) == Erase(s, skipChar) + (if x == skipChar then [] else [x])
  {
    assert (s + [x])[..|s|] == s;
  }

  /** When the skip character occurs in neither input, deleting it from the
      padded strings gives back the inputs. */
  lemma {:induction false} EraseSkipsRecoversInputs(a: string, b: string, dir: (nat, nat) -> int, i: nat, j: nat, skipChar: char)
    requires i <= |a| && j <= |b|
    requires skipChar !in a && skipChar !in b
    ensures Erase(Align(a, b, dir, i, j, skipChar).alignedA, skipChar) == a[..i]
    ensures Erase(Align(a, b, dir, i, j, skipChar).alignedB, skipChar) == b[..j]
  {
    EraseSkipsFirst(a, b, dir, i, j, skipChar);
    EraseSkipsSecond(a, b, dir, i, j, skipChar);
  }

  /** The first padded string without its skips is a[..i]. */
  lemma {:induction false} EraseSkipsFirst(a: string, b: string, dir: (nat, nat) -> int, i: nat, j: nat, skipChar: char)
    requires i <= |a| && j <= |b|
    requires skipChar !in a
    ensures Erase(Align(a, b, dir, i, j, skipChar).alignedA, skipChar) == a[..i]
    decreases i + j
  {
    if i != 0 || j != 0 {
      var s := StepAt(a, b, dir, i, j, skipChar);
      var p := Align(a, b, dir, s.pi, s.pj, skipChar);
      EraseSkipsFirst(a, b, dir, s.pi, s.pj, skipChar);
      EraseColumn(p.alignedA, s.x, a, s.pi, i, skipChar);
    }
  }

  /** The second padded string without its skips is b[..j]. */
  lemma {:induction false} EraseSkipsSecond(a: string, b: string, dir: (nat, nat) -> int, i: nat, j: nat, skipChar: char)
    requires i <= |a| && j <= |b|
    requires skipChar !in b
    ensures Erase(Align(a, b, dir, i, j, skipChar).alignedB, skipChar) == b[..j]
    decreases i + j
  {
    if i != 0 || j != 0 {
      var s := StepAt(a, b, dir, i, j, skipChar);
      var p := Align(a, b, dir, s.pi, s.pj, skipChar);
      EraseSkipsSecond(a, b, dir, s.pi, s.pj, skipChar);
      EraseColumn(p.alignedB, s.y, b, s.pj, j, skipChar);
    }
  }

  /** One more column keeps the erased side equal to a prefix of its input:
      a skip leaves the prefix as it is, the next character extends it. */
  lemma EraseColumn(side: string, x: char, s: string, n: nat, m: nat, skipChar: char)
    requires n <= m <= |s| && skipChar !in s
    requires Erase(side, skipChar) == s[..n]
    requires (m == n && x == skipChar) || (m == n + 1 && x == s[n])
    ensures Erase(side + [x], skipChar) == s[..m]
  {
    EraseAppend(side, x, skipChar);
    if m == n + 1 {
      PrefixSnoc(s, m);
    }
  }

  /** What one move costs: a skip for a left or top move, the character
      cost for a diagonal one. */
  function StepCost(x: char, y: char, d: int, cSkip: real, cMis: real): real
  {
    if d == LEFT || d == TOP then cSkip else CostChar(x, y, cMis)
  }

  /** The sum of the step costs along an alignment. */
  function PathCost(al: Alignment, cSkip: real, cMis: real): real
    requires LengthsAgree(al)
    decreases |al.directions|
  {
    if al.directions == [] then 0.0
    else
      var n := |al.directions| - 1;
      PathCost(Alignment(al.alignedA[..n], al.alignedB[..n], al.directions[..n]), cSkip, cMis)
        + StepCost(al.alignedA[n], al.alignedB[n], al.directions[n], cSkip, cMis)
  }

  lemma PathCostAppend(p: Alignment, x: char, y: char, d: int, cSkip: real, cMis: real)
    requires LengthsAgree(p)
    ensures PathCost(Alignment(p.alignedA + [x], p.alignedB + [y], p.directions + [d]), cSkip, cMis)
         == PathCost(p, cSkip, cMis) + StepCost(x, y, d, cSkip, cMis)
  {
    var n := |p.directions|;
    assert (p.alignedA + [x])[..n] == p.alignedA;
    assert (p.alignedB + [y])[..n] == p.alignedB;
    assert (p.directions + [d])[..n] == p.directions;
  }

  /** The cost matrix of a and b, as a function of the cell. */
  ghost function CostTable(a: string, b: string, cSkip: real, cMis: real): (nat, nat) -> real
  {
    (i: nat, j: nat) => if i <= |a| && j <= |b| then Cost(a, b, i, j, cSkip, cMis) else 0.0
  }

  /** Cell (i, j) of `cost` is what the cell its move (read from dir) comes
      from costs, plus the cost of that move. */
  ghost predicate MoveCostAgrees(a: string, b: string, dir: (nat, nat) -> int, cost: (nat, nat) -> real,
                                 i: nat, j: nat, cSkip: real, cMis: real, skipChar: char)
    requires i <= |a| && j <= |b| && (i != 0 || j != 0)
  {
    var s := StepAt(a, b, dir, i, j, skipChar);
    cost(i, j) == cost(s.pi, s.pj) + StepCost(s.x, s.y, s.d, cSkip, cMis)
  }

  /** The moves recorded by strings_score agree with its costs. */
  lemma CostFollowsMove(a: string, b: string, i: nat, j: nat, cSkip: real, cMis: real, skipChar: char)
    requires i <= |a| && j <= |b| && (i != 0 || j != 0)
    ensures MoveCostAgrees(a, b, Directions(a, b, cSkip, cMis), CostTable(a, b, cSkip, cMis), i, j, cSkip, cMis, skipChar)
  {
    var dir, cost := Directions(a, b, cSkip, cMis), CostTable(a, b, cSkip, cMis);
    CostRecurrence(a, b, i, j, cSkip, cMis);
    var s := StepAt(a, b, dir, i, j, skipChar);
    assert cost(i, j) == Cost(a, b, i, j, cSkip, cMis);
    assert cost(s.pi, s.pj) == Cost(a, b, s.pi, s.pj, cSkip, cMis);
    if i > 0 && j > 0 {
      assert dir(i, j) == Whence(a, b, i, j, cSkip, cMis);
    }
  }

  /** For any direction matrix whose moves agree with a cost matrix that is
      zero at (0, 0), the cost of a cell is the sum of the step costs of the
      alignment read back from it. */
  lemma {:induction false} PathCostOfMoves(a: string, b: string, dir: (nat, nat) -> int, cost: (nat, nat) -> real,
                                           i: nat, j: nat, cSkip: real, cMis: real, skipChar: char)
    requires i <= |a| && j <= |b|
    requires cost(0, 0) == 0.0
    requires forall i': nat, j': nat :: i' <= i && j' <= j && (i' != 0 || j' != 0) ==>
      MoveCostAgrees(a, b, dir, cost, i', j', cSkip, cMis, skipChar)
    ensures LengthsAgree(Align(a, b, dir, i, j, skipChar))
    ensures cost(i, j) == PathCost(Align(a, b, dir, i, j, skipChar), cSkip, cMis)
    decreases i + j
  {
    AlignedLengths(a, b, dir, i, j, skipChar);
    if i != 0 || j != 0 {
      var s := StepAt(a, b, dir, i, j, skipChar);
      var p := Align(a, b, dir, s.pi, s.pj, skipChar);
      assert MoveCostAgrees(a, b, dir, cost, i, j, cSkip, cMis, skipChar);
      PathCostOfMoves(a, b, dir, cost, s.pi, s.pj, cSkip, cMis, skipChar);
      PathCostAppend(p, s.x, s.y, s.d, cSkip, cMis);
    }
  }

  /** The optimal cost of strings_score is the sum over its move list of a
      skip for each left or top move and the character cost for each
      diagonal move. */
  lemma CostIsSumOfSteps(a: string, b: string, cSkip: real, cMis: real, skipChar: char)
    ensures LengthsAgree(Align(a, b, Directions(a, b, cSkip, cMis), |a|, |b|, skipChar))
    ensures Cost(a, b, |a|, |b|, cSkip, cMis) == PathCost(Align(a, b, Directions(a, b, cSkip, cMis), |a|, |b|, skipChar), cSkip, cMis)
  {
    var dir, cost := Directions(a, b, cSkip, cMis), CostTable(a, b, cSkip, cMis);
    forall i': nat, j': nat | i' <= |a| && j' <= |b| && (i' != 0 || j' != 0)
      ensures MoveCostAgrees(a, b, dir, cost, i', j', cSkip, cMis, skipChar)
    {
      CostFollowsMove(a, b, i', j', cSkip, cMis, skipChar);
    }
    CostRecurrence(a, b, 0, 0, cSkip, cMis);
    PathCostOfMoves(a, b, dir, cost, |a|, |b|, cSkip, cMis, skipChar);
    assert cost(|a|, |b|) == Cost(a, b, |a|, |b|, cSkip, cMis);
  }

  /** Whatever move is taken at (i, j), the cell costs at most the cell the
      move comes from plus the cost of the move. */
  lemma StepBound(a: string, b: string, dir: (nat, nat) -> int, i: nat, j: nat, cSkip: real, cMis: real, skipChar: char)
    requires i <= |a| && j <= |b| && (i != 0 || j != 0)
    ensures var s := StepAt(a, b, dir, i, j, skipChar);
            Cost(a, b, i, j, cSkip, cMis) <= Cost(a, b, s.pi, s.pj, cSkip, cMis) + StepCost(s.x, s.y, s.d, cSkip, cMis)
  {
    CostRecurrence(a, b, i, j, cSkip, cMis);
  }

  /** The cost matrix is optimal: the alignment read back from ANY direction
      matrix, that is every monotone path back to (0, 0), costs at least the
      cell it starts from. */
  lemma {:induction false} CostIsOptimal(a: string, b: string, dir: (nat, nat) -> int, i: nat, j: nat, cSkip: real, cMis: real, skipChar: char)
    requires i <= |a| && j <= |b|
    ensures LengthsAgree(Align(a, b, dir, i, j, skipChar))
    ensures Cost(a, b, i, j, cSkip, cMis) <= PathCost(Align(a, b, dir, i, j, skipChar), cSkip, cMis)
    decreases i + j
  {
    AlignedLengths(a, b, dir, i, j, skipChar);
    if i == 0 && j == 0 {
      CostRecurrence(a, b, 0, 0, cSkip, cMis);
    } else {
      var s := StepAt(a, b, dir, i, j, skipChar);
      var p := Align(a, b, dir, s.pi, s.pj, skipChar);
      StepBound(a, b, dir, i, j, cSkip, cMis, skipChar);
      CostIsOptimal(a, b, dir, s.pi, s.pj, cSkip, cMis, skipChar);
      PathCostAppend(p, s.x, s.y, s.d, cSkip, cMis);
    }
  }

  /** With nonnegative costs every cell, and so the optimal cost, is
      nonnegative. */
  lemma {:induction false} CostNonNegative(a: string, b: string, i: nat, j: nat, cSkip: real, cMis: real)
    requires i <= |a| && j <= |b|
    requires cSkip >= 0.0 && cMis >= 0.0
    ensures Cost(a, b, i, j, cSkip, cMis) >= 0.0
    decreases i + j
  {
    CostRecurrence(a, b, i, j, cSkip, cMis);
    if i == 0 && j > 0 {
      CostNonNegative(a, b, 0, j - 1, cSkip, cMis);
    } else if i > 0 && j == 0 {
      CostNonNegative(a, b, i - 1, 0, cSkip, cMis);
    } else if i > 0 && j > 0 {
      CostNonNegative(a, b, i, j - 1, cSkip, cMis);
      CostNonNegative(a, b, i - 1, j, cSkip, cMis);
      CostNonNegative(a, b, i - 1, j - 1, cSkip, cMis);
    }
  }

  /** With nonnegative costs a string aligned with itself costs nothing. */
  lemma {:induction false} SelfCostIsZero(a: string, i: nat, cSkip: real, cMis: real)
    requires i <= |a|
    requires cSkip >= 0.0 && cMis >= 0.0
    ensures Cost(a, a, i, i, cSkip, cMis) == 0.0
  {
    CostRecurrence(a, a, i, i, cSkip, cMis);
    if i > 0 {
      SelfCostIsZero(a, i - 1, cSkip, cMis);
      CostNonNegative(a, a, i, i - 1, cSkip, cMis);
      CostNonNegative(a, a, i - 1, i, cSkip, cMis);
    }
  }

  /** For any direction matrix whose diagonal holds diagonal moves, a
      string is read back against itself column by column. */
  lemma {:induction false} AlignAlongDiagonal(a: string, dir: (nat, nat) -> int, i: nat, skipChar: char)
    requires i <= |a|
    requires forall k: nat :: 0 < k <= i ==> Move(dir, k, k) == DIAG
    ensures Align(a, a, dir, i, i, skipChar) == Alignment(a[..i], a[..i], Repeat(DIAG, i))
  {
    if i > 0 {
      assert Move(dir, i, i) == DIAG;
      AlignAlongDiagonal(a, dir, i - 1, skipChar);
      PrefixSnoc(a, i);
    }
  }

  /** strings_score(a, a) with a positive skip cost and a nonnegative
      misalignment cost: the cost is zero, both padded strings are a, and
      every move is diagonal. */
  lemma SelfAlignmentIsFree(a: string, cSkip: real, cMis: real, skipChar: char)
    requires cSkip > 0.0 && cMis >= 0.0
    ensures Cost(a, a, |a|, |a|, cSkip, cMis) == 0.0
    ensures Align(a, a, Directions(a, a, cSkip, cMis), |a|, |a|, skipChar) == Alignment(a, a, Repeat(DIAG, |a|))
  {
    var dir := Directions(a, a, cSkip, cMis);
    SelfCostIsZero(a, |a|, cSkip, cMis);
    forall k: nat | 0 < k <= |a|
      ensures Move(dir, k, k) == DIAG
    {
      SelfCostIsZero(a, k - 1, cSkip, cMis);
      CostNonNegative(a, a, k, k - 1, cSkip, cMis);
      CostNonNegative(a, a, k - 1, k, cSkip, cMis);
      assert dir(k, k) == Whence(a, a, k, k, cSkip, cMis);
    }
    AlignAlongDiagonal(a, dir, |a|, skipChar);
    assert a[..|a|] == a;
  }

  /** With strictly positive costs, a zero-cost alignment only exists
      between equal strings. */
  lemma {:induction false} ZeroCostMeansEqual(a: string, b: string, i: nat, j: nat, cSkip: real, cMis: real)
    requires i <= |a| && j <= |b|
    requires cSkip > 0.0 && cMis > 0.0
    requires Cost(a, b, i, j, cSkip, cMis) == 0.0
    ensures i == j && a[..i] == b[..j]
    decreases i + j
  {
    CostRecurrence(a, b, i, j, cSkip, cMis);
    if i == 0 && j > 0 {
      CostNonNegative(a, b, 0, j - 1, cSkip, cMis);
    } else if i > 0 && j == 0 {
      CostNonNegative(a, b, i - 1, 0, cSkip, cMis);
    } else if i > 0 && j > 0 {
      CostNonNegative(a, b, i, j - 1, cSkip, cMis);
      CostNonNegative(a, b, i - 1, j, cSkip, cMis);
      CostNonNegative(a, b, i - 1, j - 1, cSkip, cMis);
      assert Cost(a, b, i - 1, j - 1, cSkip, cMis) == 0.0 && a[i - 1] == b[j - 1];
      ZeroCostMeansEqual(a, b, i - 1, j - 1, cSkip, cMis);
      PrefixSnoc(a, i);
      PrefixSnoc(b, j);
    }
  }

  /** With strictly positive costs the optimal cost is zero exactly when
      the two strings are equal. */
  lemma CostZeroIffEqual(a: string, b: string, cSkip: real, cMis: real)
    requires cSkip > 0.0 && cMis > 0.0
    ensures Cost(a, b, |a|, |b|, cSkip, cMis) == 0.0 <==> a == b
  {
    if a == b {
      SelfCostIsZero(a, |a|, cSkip, cMis);
    }
    if Cost(a, b, |a|, |b|, cSkip, cMis) == 0.0 {
      ZeroCostMeansEqual(a, b, |a|, |b|, cSkip, cMis);
      assert a == a[..|a|] && b == b[..|b|];
    }
  }

  /** The cost does not depend on which string comes first. */
  lemma {:induction false} CostSymmetric(a: string, b: string, i: nat, j: nat, cSkip: real, cMis: real)
    requires i <= |a| && j <= |b|
    ensures Cost(a, b, i, j, cSkip, cMis) == Cost(b, a, j, i, cSkip, cMis)
    decreases i + j
  {
    CostRecurrence(a, b, i, j, cSkip, cMis);
    CostRecurrence(b, a, j, i, cSkip, cMis);
    if i == 0 && j > 0 {
      CostSymmetric(a, b, 0, j - 1, cSkip, cMis);
    } else if i > 0 && j == 0 {
      CostSymmetric(a, b, i - 1, 0, cSkip, cMis);
    } else if i > 0 && j > 0 {
      CostSymmetric(a, b, i, j - 1, cSkip, cMis);
      CostSymmetric(a, b, i - 1, j, cSkip, cMis);
      CostSymmetric(a, b, i - 1, j - 1, cSkip, cMis);
    }
  }

  /** The cost of matching a[..n] against b[..n] position by position,
      without any skips. */
  function SubstitutionCost(a: string, b: string, n: nat, cMis: real): real
    requires n <= |a| && n <= |b|
  {
    if n == 0 then 0.0 else SubstitutionCost(a, b, n - 1, cMis) + CostChar(a[n - 1], b[n - 1], cMis)
  }

  /** The positions below n at which a and b hold different characters. */
  function Mismatches(a: string, b: string, n: nat): set<int>
    requires n <= |a| && n <= |b|
  {
    set k | 0 <= k < n && a[k] != b[k]
  }

  /** Extending the prefix by one position adds that position exactly when
      the characters there differ. */
  lemma MismatchesStep(a: string, b: string, n: nat)
    requires 0 < n <= |a| && n <= |b|
    ensures |Mismatches(a, b, n)| == |Mismatches(a, b, n - 1)| + (if a[n - 1] != b[n - 1] then 1 else 0)
  {
    var prev, cur := Mismatches(a, b, n - 1), Mismatches(a, b, n);
    if a[n - 1] != b[n - 1] {
      assert cur == prev + {n - 1};
    } else {
      assert cur == prev;
    }
  }

  /** The position-by-position cost is one misalignment cost per differing
      position. */
  lemma {:induction false} SubstitutionCostCounts(a: string, b: string, n: nat, cMis: real)
    requires n <= |a| && n <= |b|
    ensures SubstitutionCost(a, b, n, cMis) == (|Mismatches(a, b, n)| as real) * cMis
  {
    if n == 0 {
      assert Mismatches(a, b, 0) == {};
    } else {
      SubstitutionCostCounts(a, b, n - 1, cMis);
      MismatchesStep(a, b, n);
      var m := |Mismatches(a, b, n - 1)|;
      assert ((m + 1) as real) * cMis == (m as real) * cMis + cMis;
    }
  }

  /** The optimal cost is never more than the position-by-position cost. */
  lemma {:induction false} CostAtMostSubstitutions(a: string, b: string, n: nat, cSkip: real, cMis: real)
    requires n <= |a| && n <= |b|
    ensures Cost(a, b, n, n, cSkip, cMis) <= SubstitutionCost(a, b, n, cMis)
  {
    CostRecurrence(a, b, n, n, cSkip, cMis);
    if n > 0 {
      CostAtMostSubstitutions(a, b, n - 1, cSkip, cMis);
    }
  }
}
