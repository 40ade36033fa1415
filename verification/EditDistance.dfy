/** The duress-passcode confusability guard of `AppPasscode`: the optimal-string-alignment
    table, measured against all edit scripts, and what the guard then rejects. */
module EditDistance {

  /** One step of an edit script.  A script is read from the right end of both strings;
      a swapped pair is consumed whole, so no later step edits it again. */
  datatype Edit = Keep | Substitute(to: char) | Insert(added: char) | Delete | Swap

  function Cost(script: seq<Edit>): nat {
    if script == [] then 0
    else Cost(script[..|script| - 1]) + StepCost(script[|script| - 1])
  }

  function StepCost(e: Edit): nat { if e.Keep? then 0 else 1 }

  /** `script` rewrites the first `i` characters of `a` into the first `j` of `b`. */
  predicate Rewrites(script: seq<Edit>, a: string, i: nat, b: string, j: nat)
    requires i <= |a| && j <= |b|
    decreases |script|
  {
    if script == [] then i == 0 && j == 0
    else
      var rest := script[..|script| - 1];
      match script[|script| - 1]
      case Keep => i > 0 && j > 0 && a[i - 1] == b[j - 1] && Rewrites(rest, a, i - 1, b, j - 1)
      case Substitute(to) => i > 0 && j > 0 && b[j - 1] == to && Rewrites(rest, a, i - 1, b, j - 1)
      case Insert(added) => j > 0 && b[j - 1] == added && Rewrites(rest, a, i, b, j - 1)
      case Delete => i > 0 && Rewrites(rest, a, i - 1, b, j)
      case Swap => SwapEndsAt(a, i, b, j) && Rewrites(rest, a, i - 2, b, j - 2)
  }

  predicate SwapEndsAt(a: string, i: nat, b: string, j: nat)
    requires i <= |a| && j <= |b|
  {
    i > 1 && j > 1 && a[i - 1] == b[j - 2] && a[i - 2] == b[j - 1]
  }

  /** `d` is the least cost of any script rewriting `i` characters of `a` into `j` of `b`. */
  ghost predicate IsLeastCost(d: nat, a: string, i: nat, b: string, j: nat)
    requires i <= |a| && j <= |b|
  {
    && (exists script :: Rewrites(script, a, i, b, j) && Cost(script) == d)
    && (forall script :: Rewrites(script, a, i, b, j) ==> d <= Cost(script))
  }

  /** The optimal-string-alignment distance of two whole strings. */
  ghost predicate IsDistance(d: nat, a: string, b: string) { IsLeastCost(d, a, |a|, b, |b|) }

  /** Appending one step to a script that stops at its neighbour. */
  lemma Appended(rest: seq<Edit>, last: Edit, a: string, i: nat, b: string, j: nat)
    requires i <= |a| && j <= |b|
    requires match last
      case Keep => i > 0 && j > 0 && a[i - 1] == b[j - 1] && Rewrites(rest, a, i - 1, b, j - 1)
      case Substitute(to) => i > 0 && j > 0 && b[j - 1] == to && Rewrites(rest, a, i - 1, b, j - 1)
      case Insert(added) => j > 0 && b[j - 1] == added && Rewrites(rest, a, i, b, j - 1)
      case Delete => i > 0 && Rewrites(rest, a, i - 1, b, j)
      case Swap => SwapEndsAt(a, i, b, j) && Rewrites(rest, a, i - 2, b, j - 2)
    ensures Rewrites(rest + [last], a, i, b, j)
    ensures Cost(rest + [last]) == Cost(rest) + StepCost(last)
  {
    var script := rest + [last];
    assert script[..|script| - 1] == rest && script[|script| - 1] == last;
  }

  function Min(x: nat, y: nat): nat { if x < y then x else y }

  /** One table cell from its neighbours: deletion, insertion, substitution and, where the
      last two characters are crossed, transposition. */
  function Cell(up: nat, left: nat, diagonal: nat, same: bool, swap: bool, beforeSwap: nat): nat {
    var best := Min(Min(up + 1, left + 1), diagonal + if same then 0 else 1);
    if swap then Min(best, beforeSwap + 1) else best
  }

  /** Least costs of the neighbouring cells. */
  ghost predicate Neighbours(up: nat, left: nat, diagonal: nat, beforeSwap: nat,
                             a: string, i: nat, b: string, j: nat)
    requires 0 < i <= |a| && 0 < j <= |b|
  {
    && IsLeastCost(up, a, i - 1, b, j)
    && IsLeastCost(left, a, i, b, j - 1)
    && IsLeastCost(diagonal, a, i - 1, b, j - 1)
    && (SwapEndsAt(a, i, b, j) ==> IsLeastCost(beforeSwap, a, i - 2, b, j - 2))
  }

  lemma CellIsLowerBound(up: nat, left: nat, diagonal: nat, beforeSwap: nat,
                         a: string, i: nat, b: string, j: nat, script: seq<Edit>)
    requires 0 < i <= |a| && 0 < j <= |b| && Neighbours(up, left, diagonal, beforeSwap, a, i, b, j)
    requires Rewrites(script, a, i, b, j)
    ensures Cell(up, left, diagonal, a[i - 1] == b[j - 1], SwapEndsAt(a, i, b, j), beforeSwap) <= Cost(script)
  {
    var rest := script[..|script| - 1];
    assert Cost(script) == Cost(rest) + StepCost(script[|script| - 1]);
  }

  lemma CellIsReached(up: nat, left: nat, diagonal: nat, beforeSwap: nat,
                      a: string, i: nat, b: string, j: nat)
    requires 0 < i <= |a| && 0 < j <= |b| && Neighbours(up, left, diagonal, beforeSwap, a, i, b, j)
    ensures exists script ::
      && Rewrites(script, a, i, b, j)
      && Cost(script) == Cell(up, left, diagonal, a[i - 1] == b[j - 1], SwapEndsAt(a, i, b, j), beforeSwap)
  {
    var swap := SwapEndsAt(a, i, b, j);
    var best := Cell(up, left, diagonal, a[i - 1] == b[j - 1], swap, beforeSwap);
    var rest, last;
    if swap && best == beforeSwap + 1 {
      rest :| Rewrites(rest, a, i - 2, b, j - 2) && Cost(rest) == beforeSwap;
      last := Swap;
    } else if best == up + 1 {
      rest :| Rewrites(rest, a, i - 1, b, j) && Cost(rest) == up;
      last := Delete;
    } else if best == left + 1 {
      rest :| Rewrites(rest, a, i, b, j - 1) && Cost(rest) == left;
      last := Insert(b[j - 1]);
    } else {
      rest :| Rewrites(rest, a, i - 1, b, j - 1) && Cost(rest) == diagonal;
      last := if a[i - 1] == b[j - 1] then Keep else Substitute(b[j - 1]);
    }
    Appended(rest, last, a, i, b, j);
  }

  /** The recurrence: least neighbours give the least cell. */
  lemma CellIsLeast(up: nat, left: nat, diagonal: nat, beforeSwap: nat,
                    a: string, i: nat, b: string, j: nat)
    requires 0 < i <= |a| && 0 < j <= |b| && Neighbours(up, left, diagonal, beforeSwap, a, i, b, j)
    ensures IsLeastCost(Cell(up, left, diagonal, a[i - 1] == b[j - 1], SwapEndsAt(a, i, b, j), beforeSwap), a, i, b, j)
  {
    CellIsReached(up, left, diagonal, beforeSwap, a, i, b, j);
    forall script | Rewrites(script, a, i, b, j)
      ensures Cell(up, left, diagonal, a[i - 1] == b[j - 1], SwapEndsAt(a, i, b, j), beforeSwap) <= Cost(script)
    {
      CellIsLowerBound(up, left, diagonal, beforeSwap, a, i, b, j, script);
    }
  }

  lemma {:induction false} CostCoversLengths(script: seq<Edit>, a: string, i: nat, b: string, j: nat)
    requires i <= |a| && j <= |b| && Rewrites(script, a, i, b, j)
    ensures i <= j + Cost(script) && j <= i + Cost(script)
    decreases |script|
  {
    if script != [] {
      var rest := script[..|script| - 1];
      match script[|script| - 1] {
        case Keep => CostCoversLengths(rest, a, i - 1, b, j - 1);
        case Substitute(_) => CostCoversLengths(rest, a, i - 1, b, j - 1);
        case Insert(_) => CostCoversLengths(rest, a, i, b, j - 1);
        case Delete => CostCoversLengths(rest, a, i - 1, b, j);
        case Swap => CostCoversLengths(rest, a, i - 2, b, j - 2);
      }
    }
  }

  lemma {:induction false} MarginHasScript(a: string, i: nat, b: string, j: nat) returns (script: seq<Edit>)
    requires i <= |a| && j <= |b| && (i == 0 || j == 0)
    ensures Rewrites(script, a, i, b, j) && Cost(script) == i + j
    decreases i + j
  {
    if i == 0 && j == 0 {
      return [];
    } else if i == 0 {
      var rest := MarginHasScript(a, i, b, j - 1);
      script := rest + [Insert(b[j - 1])];
      Appended(rest, Insert(b[j - 1]), a, i, b, j);
    } else {
      var rest := MarginHasScript(a, i - 1, b, j);
      script := rest + [Delete];
      Appended(rest, Delete, a, i, b, j);
    }
  }

  /** The top row and left column: only insertions, or only deletions. */
  lemma MarginIsLeast(a: string, i: nat, b: string, j: nat)
    requires i <= |a| && j <= |b| && (i == 0 || j == 0)
    ensures IsLeastCost(i + j, a, i, b, j)
  {
    var script := MarginHasScript(a, i, b, j);
    forall other | Rewrites(other, a, i, b, j) ensures i + j <= Cost(other) {
      CostCoversLengths(other, a, i, b, j);
    }
  }

  /** Rows `0..rows` of the table, and its left column, hold least costs. */
  ghost predicate Filled(d: array2<nat>, a: string, b: string, rows: nat)
    requires d.Length0 == |a| + 1 && d.Length1 == |b| + 1
    reads d
  {
    && (forall p, q :: 0 <= p < rows && p <= |a| && 0 <= q <= |b| ==> IsLeastCost(d[p, q], a, p, b, q))
    && (forall p :: 0 <= p <= |a| ==> d[p, 0] == p)
  }

  /** The first `cols` cells of row `i` hold least costs. */
  ghost predicate RowFilled(d: array2<nat>, a: string, b: string, i: nat, cols: nat)
    requires d.Length0 == |a| + 1 && d.Length1 == |b| + 1 && i <= |a| && cols <= |b| + 1
    reads d
  {
    forall q :: 0 <= q < cols ==> IsLeastCost(d[i, q], a, i, b, q)
  }

  /** One cell from its neighbours. */
  method BestCell(a: string, b: string, d: array2<nat>, i: nat, j: nat) returns (best: nat)
    requires d.Length0 == |a| + 1 && d.Length1 == |b| + 1 && 1 <= i <= |a| && 1 <= j <= |b|
    requires Filled(d, a, b, i) && RowFilled(d, a, b, i, j)
    ensures IsLeastCost(best, a, i, b, j)
  {
    var cost := if a[i - 1] == b[j - 1] then 0 else 1;
    best := Min(Min(d[i - 1, j] + 1, d[i, j - 1] + 1), d[i - 1, j - 1] + cost);
    ghost var beforeSwap := 0;
    if i > 1 && j > 1 && a[i - 1] == b[j - 2] && a[i - 2] == b[j - 1] {
      best := Min(best, d[i - 2, j - 2] + 1);
      beforeSwap := d[i - 2, j - 2];
    }
    CellIsLeast(d[i - 1, j], d[i, j - 1], d[i - 1, j - 1], beforeSwap, a, i, b, j);
  }

  /** The inner loop of the table: row `i` from rows `i - 1` and `i - 2`. */
  method FillRow(a: string, b: string, d: array2<nat>, i: nat)
    requires d.Length0 == |a| + 1 && d.Length1 == |b| + 1 && 1 <= i <= |a| && Filled(d, a, b, i)
    modifies d
    ensures Filled(d, a, b, i + 1)
  {
    MarginIsLeast(a, i, b, 0);
    for j := 1 to |b| + 1
      invariant Filled(d, a, b, i) && RowFilled(d, a, b, i, j)
    {
      var best := BestCell(a, b, d, i, j);
      d[i, j] := best;
    }
  }

  /** The whole table, filled in place row by row. */
  method OsaDistance(a: string, b: string) returns (distance: nat)
    ensures IsDistance(distance, a, b)
  {
    var n, m := |a|, |b|;
    if n == 0 { MarginIsLeast(a, n, b, m); return m; }
    if m == 0 { MarginIsLeast(a, n, b, m); return n; }
    var d := new nat[n + 1, m + 1];
    for i := 0 to n + 1
      invariant forall p :: 0 <= p < i ==> d[p, 0] == p
    {
      d[i, 0] := i;
    }
    for j := 0 to m + 1
      invariant forall p :: 0 <= p <= n ==> d[p, 0] == p
      invariant forall q :: 0 <= q < j ==> IsLeastCost(d[0, q], a, 0, b, q)
    {
      MarginIsLeast(a, 0, b, j);
      d[0, j] := j;
    }
    for i := 1 to n + 1
      invariant Filled(d, a, b, i)
    {
      FillRow(a, b, d, i);
    }
    distance := d[n, m];
  }

  // ----- symmetry -----

  /** The script that undoes `script`: insertions and deletions trade places. */
  lemma {:induction false} Mirrored(script: seq<Edit>, a: string, i: nat, b: string, j: nat) returns (back: seq<Edit>)
    requires i <= |a| && j <= |b| && Rewrites(script, a, i, b, j)
    ensures Rewrites(back, b, j, a, i) && Cost(back) == Cost(script)
    decreases |script|
  {
    if script == [] { return []; }
    var rest, last := script[..|script| - 1], script[|script| - 1];
    var back', last';
    match last {
      case Keep => back' := Mirrored(rest, a, i - 1, b, j - 1); last' := Keep;
      case Substitute(_) => back' := Mirrored(rest, a, i - 1, b, j - 1); last' := Substitute(a[i - 1]);
      case Insert(_) => back' := Mirrored(rest, a, i, b, j - 1); last' := Delete;
      case Delete => back' := Mirrored(rest, a, i - 1, b, j); last' := Insert(a[i - 1]);
      case Swap => back' := Mirrored(rest, a, i - 2, b, j - 2); last' := Swap;
    }
    back := back' + [last'];
    Appended(back', last', b, j, a, i);
  }

  lemma DistanceSymmetric(d: nat, a: string, b: string)
    requires IsDistance(d, a, b)
    ensures IsDistance(d, b, a)
  {
    var script :| Rewrites(script, a, |a|, b, |b|) && Cost(script) == d;
    var back := Mirrored(script, a, |a|, b, |b|);
    forall other | Rewrites(other, b, |b|, a, |a|) ensures d <= Cost(other) {
      var there := Mirrored(other, b, |b|, a, |a|);
    }
  }

  // ----- what the guard rejects -----

  const MAX_CONFUSABLE_EDIT_DISTANCE := 1

  function Inserted(a: string, k: nat, c: char): string requires k <= |a| { a[..k] + [c] + a[k..] }
  function Deleted(a: string, k: nat): string requires k < |a| { a[..k] + a[k + 1..] }
  function Substituted(a: string, k: nat, c: char): string requires k < |a| { a[k := c] }
  function Swapped(a: string, k: nat): string requires k + 1 < |a| { a[k := a[k + 1]][k + 1 := a[k]] }

  /** `b` is `a` with one extra, one missing or one wrong character, or one adjacent swap. */
  ghost predicate OneTypo(a: string, b: string) {
    || (exists k: nat, c: char :: k <= |a| && b == Inserted(a, k, c))
    || (exists k: nat :: k < |a| && b == Deleted(a, k))
    || (exists k: nat, c: char :: k < |a| && b == Substituted(a, k, c))
    || (exists k: nat :: k + 1 < |a| && b == Swapped(a, k))
  }

  lemma {:induction false} CostZeroMeansEqual(script: seq<Edit>, a: string, i: nat, b: string, j: nat)
    requires i <= |a| && j <= |b| && Rewrites(script, a, i, b, j) && Cost(script) == 0
    ensures a[..i] == b[..j]
    decreases |script|
  {
    if script != [] {
      CostZeroMeansEqual(script[..|script| - 1], a, i - 1, b, j - 1);
      assert a[..i] == a[..i - 1] + [a[i - 1]] && b[..j] == b[..j - 1] + [b[j - 1]];
    }
  }

  /** A typo stays a typo when the same character is typed after it. */
  lemma TypoThenKeep(a: string, b: string, c: char)
    requires OneTypo(a, b)
    ensures OneTypo(a + [c], b + [c])
  {
    if k: nat, x: char :| k <= |a| && b == Inserted(a, k, x) {
      InsertedThenKeep(a, k, x, c);
    } else if k: nat :| k < |a| && b == Deleted(a, k) {
      DeletedThenKeep(a, k, c);
    } else if k: nat, x: char :| k < |a| && b == Substituted(a, k, x) {
      assert b + [c] == Substituted(a + [c], k, x);
    } else {
      var k: nat :| k + 1 < |a| && b == Swapped(a, k);
      SwappedThenKeep(a, k, c);
    }
  }

  lemma InsertedThenKeep(a: string, k: nat, x: char, c: char)
    requires k <= |a|
    ensures Inserted(a, k, x) + [c] == Inserted(a + [c], k, x)
  {
    assert (a + [c])[..k] == a[..k] && (a + [c])[k..] == a[k..] + [c];
  }

  lemma DeletedThenKeep(a: string, k: nat, c: char)
    requires k < |a|
    ensures Deleted(a, k) + [c] == Deleted(a + [c], k)
  {
    assert (a + [c])[..k] == a[..k] && (a + [c])[k + 1..] == a[k + 1..] + [c];
  }

  lemma SwappedThenKeep(a: string, k: nat, c: char)
    requires k + 1 < |a|
    ensures Swapped(a, k) + [c] == Swapped(a + [c], k)
  {
  }

  lemma SamePrefix(s: string, m: nat, t: string, n: nat)
    requires m <= |s| && n <= |t| && s[..m] == t[..n]
    ensures m == n && forall k :: 0 <= k < m ==> s[k] == t[k]
  {
    assert |s[..m]| == m && |t[..n]| == n;
    forall k | 0 <= k < m ensures s[k] == t[k] { assert s[..m][k] == t[..n][k]; }
  }

  lemma SubstituteIsTypo(s: string, t: string)
    requires |s| > 0 && |t| > 0 && s[..|s| - 1] == t[..|t| - 1]
    ensures OneTypo(s, t)
  {
    SamePrefix(s, |s| - 1, t, |t| - 1);
    assert t == Substituted(s, |s| - 1, t[|t| - 1]);
  }

  lemma InsertIsTypo(s: string, t: string)
    requires |t| > 0 && s == t[..|t| - 1]
    ensures OneTypo(s, t)
  {
    assert t == Inserted(s, |s|, t[|t| - 1]);
  }

  lemma DeleteIsTypo(s: string, t: string)
    requires |s| > 0 && s[..|s| - 1] == t
    ensures OneTypo(s, t)
  {
    assert t == Deleted(s, |s| - 1);
  }

  lemma SwapIsTypo(s: string, t: string)
    requires SwapEndsAt(s, |s|, t, |t|) && s[..|s| - 2] == t[..|t| - 2]
    ensures OneTypo(s, t)
  {
    SamePrefix(s, |s| - 2, t, |t| - 2);
    var u := Swapped(s, |s| - 2);
    assert |u| == |t| && forall k :: 0 <= k < |t| ==> t[k] == u[k];
    assert t == u;
  }

  /** A script of cost one that ends in its edit. */
  lemma EditIsTypo(script: seq<Edit>, a: string, i: nat, b: string, j: nat)
    requires i <= |a| && j <= |b| && Rewrites(script, a, i, b, j)
    requires script != [] && !script[|script| - 1].Keep? && Cost(script[..|script| - 1]) == 0
    ensures OneTypo(a[..i], b[..j])
  {
    var rest, s, t := script[..|script| - 1], a[..i], b[..j];
    match script[|script| - 1] {
      case Substitute(_) =>
        CostZeroMeansEqual(rest, a, i - 1, b, j - 1);
        assert s[..i - 1] == a[..i - 1] && t[..j - 1] == b[..j - 1];
        SubstituteIsTypo(s, t);
      case Insert(_) =>
        CostZeroMeansEqual(rest, a, i, b, j - 1);
        assert t[..j - 1] == b[..j - 1];
        InsertIsTypo(s, t);
      case Delete =>
        CostZeroMeansEqual(rest, a, i - 1, b, j);
        assert s[..i - 1] == a[..i - 1];
        DeleteIsTypo(s, t);
      case Swap =>
        CostZeroMeansEqual(rest, a, i - 2, b, j - 2);
        assert s[..i - 2] == a[..i - 2] && t[..j - 2] == b[..j - 2];
        SwapIsTypo(s, t);
    }
  }

  lemma KeepAfterTypo(a: string, i: nat, b: string, j: nat)
    requires 0 < i <= |a| && 0 < j <= |b| && a[i - 1] == b[j - 1] && OneTypo(a[..i - 1], b[..j - 1])
    ensures OneTypo(a[..i], b[..j])
  {
    PrefixEnds(a, i);
    PrefixEnds(b, j);
    TypoThenKeep(a[..i - 1], b[..j - 1], a[i - 1]);
  }

  lemma PrefixEnds(s: string, i: nat)
    requires 0 < i <= |s|
    ensures s[..i] == s[..i - 1] + [s[i - 1]]
  {
  }

  lemma LastStep(script: seq<Edit>, a: string, i: nat, b: string, j: nat)
    requires i <= |a| && j <= |b| && Rewrites(script, a, i, b, j) && Cost(script) == 1
    ensures script != []
    ensures var rest, last := script[..|script| - 1], script[|script| - 1];
      if last.Keep? then i > 0 && j > 0 && a[i - 1] == b[j - 1] && Rewrites(rest, a, i - 1, b, j - 1) && Cost(rest) == 1
      else Cost(rest) == 0
  {
  }

  lemma {:induction false} CostOneMeansOneTypo(script: seq<Edit>, a: string, i: nat, b: string, j: nat)
    requires i <= |a| && j <= |b| && Rewrites(script, a, i, b, j) && Cost(script) == 1
    ensures OneTypo(a[..i], b[..j])
    decreases |script|
  {
    LastStep(script, a, i, b, j);
    if script[|script| - 1].Keep? {
      CostOneMeansOneTypo(script[..|script| - 1], a, i - 1, b, j - 1);
      KeepAfterTypo(a, i, b, j);
    } else {
      EditIsTypo(script, a, i, b, j);
    }
  }

  /** Agreeing on `t` further characters extends a script at no cost. */
  lemma {:induction false} KeepRun(script: seq<Edit>, a: string, i: nat, b: string, j: nat, t: nat)
    returns (longer: seq<Edit>)
    requires i + t <= |a| && j + t <= |b| && a[i..i + t] == b[j..j + t]
    requires Rewrites(script, a, i, b, j)
    ensures Rewrites(longer, a, i + t, b, j + t) && Cost(longer) == Cost(script)
    decreases t
  {
    if t == 0 { return script; }
    var s := a[i..i + t];
    assert a[i..i + t - 1] == s[..t - 1] == b[j..j + t - 1];
    assert a[i + t - 1] == s[t - 1] == b[j + t - 1];
    var rest := KeepRun(script, a, i, b, j, t - 1);
    longer := rest + [Keep];
    Appended(rest, Keep, a, i + t, b, j + t);
  }

  /** A script that keeps `k` characters, makes one edit and keeps the rest. */
  lemma OneEditScript(last: Edit, a: string, i: nat, b: string, j: nat, k: nat) returns (script: seq<Edit>)
    requires k <= i <= |a| && k <= j <= |b| && a[..k] == b[..k] && a[i..] == b[j..]
    requires match last
      case Keep => false
      case Substitute(to) => i == j == k + 1 && b[k] == to
      case Insert(added) => i == k && j == k + 1 && b[k] == added
      case Delete => i == k + 1 && j == k
      case Swap => i == j == k + 2 && SwapEndsAt(a, i, b, j)
    ensures Rewrites(script, a, |a|, b, |b|) && Cost(script) == 1
  {
    assert |a[i..]| == |b[j..]| && a[0..k] == b[0..k];
    var before := KeepRun([], a, 0, b, 0, k);
    Appended(before, last, a, i, b, j);
    var t := |a| - i;
    assert a[i..i + t] == a[i..] && b[j..j + t] == b[j..];
    script := KeepRun(before + [last], a, i, b, j, t);
  }

  lemma InsertedParts(a: string, k: nat, x: char)
    requires k <= |a|
    ensures
      var b := Inserted(a, k, x);
      |b| == |a| + 1 && a[..k] == b[..k] && b[k] == x && a[k..] == b[k + 1..]
  {
  }

  lemma DeletedParts(a: string, k: nat)
    requires k < |a|
    ensures var b := Deleted(a, k); |b| == |a| - 1 && a[..k] == b[..k] && a[k + 1..] == b[k..]
  {
  }

  lemma InsertScript(a: string, k: nat, x: char) returns (script: seq<Edit>)
    requires k <= |a|
    ensures Rewrites(script, a, |a|, Inserted(a, k, x), |Inserted(a, k, x)|) && Cost(script) == 1
  {
    InsertedParts(a, k, x);
    script := OneEditScript(Insert(x), a, k, Inserted(a, k, x), k + 1, k);
  }

  lemma DeleteScript(a: string, k: nat) returns (script: seq<Edit>)
    requires k < |a|
    ensures Rewrites(script, a, |a|, Deleted(a, k), |Deleted(a, k)|) && Cost(script) == 1
  {
    DeletedParts(a, k);
    script := OneEditScript(Delete, a, k + 1, Deleted(a, k), k, k);
  }

  lemma SubstituteScript(a: string, k: nat, x: char) returns (script: seq<Edit>)
    requires k < |a|
    ensures Rewrites(script, a, |a|, Substituted(a, k, x), |Substituted(a, k, x)|) && Cost(script) == 1
  {
    var b := Substituted(a, k, x);
    assert a[..k] == b[..k] && a[k + 1..] == b[k + 1..];
    script := OneEditScript(Substitute(x), a, k + 1, b, k + 1, k);
  }

  lemma SwapScript(a: string, k: nat) returns (script: seq<Edit>)
    requires k + 1 < |a|
    ensures Rewrites(script, a, |a|, Swapped(a, k), |Swapped(a, k)|) && Cost(script) == 1
  {
    var b := Swapped(a, k);
    assert a[..k] == b[..k] && a[k + 2..] == b[k + 2..];
    script := OneEditScript(Swap, a, k + 2, b, k + 2, k);
  }

  lemma OneTypoHasScript(a: string, b: string) returns (script: seq<Edit>)
    requires OneTypo(a, b)
    ensures Rewrites(script, a, |a|, b, |b|) && Cost(script) == 1
  {
    if k: nat, x: char :| k <= |a| && b == Inserted(a, k, x) {
      script := InsertScript(a, k, x);
    } else if k: nat :| k < |a| && b == Deleted(a, k) {
      script := DeleteScript(a, k);
    } else if k: nat, x: char :| k < |a| && b == Substituted(a, k, x) {
      script := SubstituteScript(a, k, x);
    } else {
      var k: nat :| k + 1 < |a| && b == Swapped(a, k);
      script := SwapScript(a, k);
    }
  }

  /** Distance at most one is equality or one typo. */
  lemma WithinOneTypo(d: nat, a: string, b: string)
    requires IsDistance(d, a, b)
    ensures d <= 1 <==> a == b || OneTypo(a, b)
  {
    var script :| Rewrites(script, a, |a|, b, |b|) && Cost(script) == d;
    assert a[..|a|] == a && b[..|b|] == b;
    if d == 0 {
      CostZeroMeansEqual(script, a, |a|, b, |b|);
    } else if d == 1 {
      CostOneMeansOneTypo(script, a, |a|, b, |b|);
    }
    if a == b {
      var keep := KeepRun([], a, 0, b, 0, |a|);
    } else if OneTypo(a, b) {
      var other := OneTypoHasScript(a, b);
    }
  }

  /** The guard rejects exactly the equal passcodes and those one typo away, whichever
      of the two is taken as the intended one. */
  method DuressTooSimilarToReal(realCode: string, duress: string) returns (similar: bool)
    ensures similar <==> realCode == duress || OneTypo(realCode, duress)
    ensures similar <==> realCode == duress || OneTypo(duress, realCode)
  {
    var distance := OsaDistance(realCode, duress);
    similar := distance <= MAX_CONFUSABLE_EDIT_DISTANCE;
    WithinOneTypo(distance, realCode, duress);
    DistanceSymmetric(distance, realCode, duress);
    WithinOneTypo(distance, duress, realCode);
  }
}
