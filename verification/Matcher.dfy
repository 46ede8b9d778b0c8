/**
 * The spelling corrector: SequenceMatcher's ratio. A table of common suffix lengths, kept two rows at a time, finds
 * the longest common substring; the parts to its left and right are matched the same way.
 */
module Matcher {

  /** A common substring: `len` characters at `i` in one text and at `j` in the other. */
  datatype Block = Block(i: nat, j: nat, len: nat)

  predicate IsCommon(a: string, b: string, k: Block) {
    k.i + k.len <= |a| && k.j + k.len <= |b| && a[k.i..k.i + k.len] == b[k.j..k.j + k.len]
  }

  predicate Earlier(k: Block, m: Block) {
    k.i < m.i || (k.i == m.i && k.j < m.j)
  }

  /** Maximal length; among those the earliest in a, then the earliest in b. */
  ghost predicate IsBest(a: string, b: string, k: Block) {
    IsCommon(a, b, k) && forall m :: IsCommon(a, b, m) ==> m.len < k.len || (m.len == k.len && !Earlier(m, k))
  }

  lemma BestIsUnique(a: string, b: string, k: Block, m: Block)
    requires IsBest(a, b, k) && IsBest(a, b, m)
    ensures k == m
  {
  }

  // --- the table ---

  /** Length of the longest common suffix of a[..i] and b[..j]. */
  function Suffix(a: string, b: string, i: nat, j: nat): nat
    requires i <= |a| && j <= |b|
  {
    if i == 0 || j == 0 || a[i - 1] != b[j - 1] then 0 else 1 + Suffix(a, b, i - 1, j - 1)
  }

  lemma {:induction false} SuffixIsCommon(a: string, b: string, i: nat, j: nat)
    requires i <= |a| && j <= |b|
    ensures var n := Suffix(a, b, i, j); n <= i && n <= j && a[i - n..i] == b[j - n..j]
  {
    if i > 0 && j > 0 && a[i - 1] == b[j - 1] {
      SuffixIsCommon(a, b, i - 1, j - 1);
      var n := Suffix(a, b, i - 1, j - 1);
      SliceGrows(a, i - 1 - n, i - 1);
      SliceGrows(b, j - 1 - n, j - 1);
    }
  }

  lemma SliceGrows(s: string, from: nat, to: nat)
    requires from <= to < |s|
    ensures s[from..to + 1] == s[from..to] + [s[to]]
  {
  }

  lemma SuffixFits(a: string, b: string, i: nat, j: nat)
    requires i <= |a| && j <= |b|
    ensures Suffix(a, b, i, j) <= i && Suffix(a, b, i, j) <= j
  {
    SuffixIsCommon(a, b, i, j);
  }

  lemma {:induction false} CommonIsSuffix(a: string, b: string, k: Block)
    requires IsCommon(a, b, k)
    ensures k.len <= Suffix(a, b, k.i + k.len, k.j + k.len)
    decreases k.len
  {
    if k.len > 0 {
      var n := k.len - 1;
      SliceGrows(a, k.i, k.i + n);
      SliceGrows(b, k.j, k.j + n);
      assert (a[k.i..k.i + n] + [a[k.i + n]])[..n] == a[k.i..k.i + n];
      assert (b[k.j..k.j + n] + [b[k.j + n]])[..n] == b[k.j..k.j + n];
      assert (a[k.i..k.i + n] + [a[k.i + n]])[n] == (b[k.j..k.j + n] + [b[k.j + n]])[n];
      CommonIsSuffix(a, b, Block(k.i, k.j, n));
    }
  }

  /** The common suffix ending at cell (x, y) is shorter than `best`, or as long and not before it. */
  predicate NotBetter(a: string, b: string, x: nat, y: nat, best: Block)
    requires x <= |a| && y <= |b|
  {
    Suffix(a, b, x, y) < best.len ||
    (Suffix(a, b, x, y) == best.len && (best.len > 0 ==> !CellBefore(x, y, best.i + best.len, best.j + best.len)))
  }

  predicate CellBefore(x: nat, y: nat, x': nat, y': nat) {
    x < x' || (x == x' && y < y')
  }

  /** `best` is the first longest suffix among the cells of the rows above i, and of row i up to column j. */
  ghost predicate BestSoFar(a: string, b: string, i: nat, j: nat, best: Block) {
    && IsCommon(a, b, best)
    && (if best.len == 0 then best.i == 0 && best.j == 0 else !CellBefore(i, j, best.i + best.len, best.j + best.len))
    && forall x: nat, y: nat :: x <= |a| && y <= |b| && !CellBefore(i, j, x, y) ==> NotBetter(a, b, x, y, best)
  }

  lemma NextRow(a: string, b: string, i: nat, best: Block)
    requires i < |a| && BestSoFar(a, b, i, |b|, best)
    ensures BestSoFar(a, b, i + 1, 0, best)
  {
    forall x: nat, y: nat | x <= |a| && y <= |b| && !CellBefore(i + 1, 0, x, y) ensures NotBetter(a, b, x, y, best) {
      assert !CellBefore(i, |b|, x, y) || y == 0;
    }
  }

  lemma CellKeeps(a: string, b: string, i: nat, j: nat, best: Block)
    requires 0 < i <= |a| && 0 < j <= |b| && BestSoFar(a, b, i, j - 1, best) && Suffix(a, b, i, j) <= best.len
    ensures BestSoFar(a, b, i, j, best)
  {
    forall x: nat, y: nat | x <= |a| && y <= |b| && !CellBefore(i, j, x, y) ensures NotBetter(a, b, x, y, best) {
      assert !CellBefore(i, j - 1, x, y) || (x == i && y == j);
    }
  }

  lemma CellWins(a: string, b: string, i: nat, j: nat, best: Block, won: Block)
    requires 0 < i <= |a| && 0 < j <= |b| && BestSoFar(a, b, i, j - 1, best)
    requires won.len == Suffix(a, b, i, j) > best.len && won.i + won.len == i && won.j + won.len == j
    ensures BestSoFar(a, b, i, j, won)
  {
    SuffixIsCommon(a, b, i, j);
    forall x: nat, y: nat | x <= |a| && y <= |b| && !CellBefore(i, j, x, y) ensures NotBetter(a, b, x, y, won) {
      assert !CellBefore(i, j - 1, x, y) || (x == i && y == j);
      assert !CellBefore(i, j - 1, x, y) ==> NotBetter(a, b, x, y, best);
    }
  }

  lemma WholeTable(a: string, b: string, best: Block)
    requires BestSoFar(a, b, |a|, |b|, best)
    ensures IsBest(a, b, best)
  {
    forall m | IsCommon(a, b, m) ensures m.len < best.len || (m.len == best.len && !Earlier(m, best)) {
      CommonIsSuffix(a, b, m);
      assert NotBetter(a, b, m.i + m.len, m.j + m.len, best);
    }
  }

  /** The first longest suffix, reading the table row by row. */
  function Scan(a: string, b: string, i: nat, j: nat): Block
    requires i <= |a| && j <= |b|
    decreases i, j
  {
    if i == 0 then Block(0, 0, 0)
    else if j == 0 then Scan(a, b, i - 1, |b|)
    else
      var best, n := Scan(a, b, i, j - 1), Suffix(a, b, i, j);
      if n <= best.len then best else
        SuffixFits(a, b, i, j);
        Block(i - n, j - n, n)
  }

  lemma {:induction false} ScanIsBestSoFar(a: string, b: string, i: nat, j: nat)
    requires i <= |a| && j <= |b|
    ensures BestSoFar(a, b, i, j, Scan(a, b, i, j))
    decreases i, j
  {
    if i > 0 && j == 0 {
      ScanIsBestSoFar(a, b, i - 1, |b|);
      NextRow(a, b, i - 1, Scan(a, b, i - 1, |b|));
    } else if i > 0 {
      ScanIsBestSoFar(a, b, i, j - 1);
      var best := Scan(a, b, i, j - 1);
      if Suffix(a, b, i, j) > best.len {
        CellWins(a, b, i, j, best, Scan(a, b, i, j));
      } else {
        CellKeeps(a, b, i, j, best);
      }
    }
  }

  function Best(a: string, b: string): Block {
    Scan(a, b, |a|, |b|)
  }

  /** A maximal common substring, and among those the one earliest in a and then in b. */
  lemma BestIsBest(a: string, b: string)
    ensures IsBest(a, b, Best(a, b))
  {
    ScanIsBestSoFar(a, b, |a|, |b|);
    WholeTable(a, b, Best(a, b));
  }

  lemma BestFits(a: string, b: string)
    ensures var k := Best(a, b); k.i + k.len <= |a| && k.j + k.len <= |b|
  {
    BestIsBest(a, b);
  }

  /** How much is matched: the best block, and what is matched on its left and on its right. */
  function MatchCount(a: string, b: string): nat
    decreases |a| + |b|
  {
    var k := Best(a, b);
    BestFits(a, b);
    if k.len == 0 then 0 else k.len + MatchCount(a[..k.i], b[..k.j]) + MatchCount(a[k.i + k.len..], b[k.j + k.len..])
  }

  /** The two nested loops of matchingRunes, with `lengths` the row above and `next` the row being filled. */
  method LongestBlock(a: string, b: string) returns (bestA: nat, bestB: nat, bestLen: nat)
    ensures Block(bestA, bestB, bestLen) == Best(a, b)
  {
    bestA, bestB, bestLen := 0, 0, 0;
    var lengths := new nat[|b| + 1](_ => 0);
    for i := 0 to |a|
      invariant lengths.Length == |b| + 1
      invariant forall y :: 0 <= y <= |b| ==> lengths[y] == Suffix(a, b, i, y)
      invariant Block(bestA, bestB, bestLen) == Scan(a, b, i, |b|)
    {
      var next := new nat[|b| + 1](_ => 0);
      for j := 0 to |b|
        modifies next
        invariant forall y :: 0 <= y <= |b| ==> next[y] == if y <= j then Suffix(a, b, i + 1, y) else 0
        invariant Block(bestA, bestB, bestLen) == Scan(a, b, i + 1, j)
      {
        if a[i] != b[j] {
          continue;
        }
        next[j + 1] := lengths[j] + 1;
        SuffixFits(a, b, i + 1, j + 1);
        if next[j + 1] > bestLen {
          bestA, bestB, bestLen := i - next[j + 1] + 1, j - next[j + 1] + 1, next[j + 1];
        }
      }
      lengths := next;
    }
  }

  method MatchingRunes(a: string, b: string) returns (n: nat)
    ensures n == MatchCount(a, b)
    decreases |a| + |b|
  {
    BestFits(a, b);
    if |a| == 0 || |b| == 0 {
      return 0;
    }
    var bestA, bestB, bestLen := LongestBlock(a, b);
    if bestLen == 0 {
      return 0;
    }
    var left := MatchingRunes(a[..bestA], b[..bestB]);
    var right := MatchingRunes(a[bestA + bestLen..], b[bestB + bestLen..]);
    n := bestLen + left + right;
  }

  // --- between the longest common substring and the longest common subsequence ---

  predicate Subsequence(c: string, s: string) {
    c == "" || (s != "" && ((c[0] == s[0] && Subsequence(c[1..], s[1..])) || Subsequence(c, s[1..])))
  }

  lemma {:induction false} SubsequenceConcat(c: string, s: string, d: string, t: string)
    requires Subsequence(c, s) && Subsequence(d, t)
    ensures Subsequence(c + d, s + t)
    decreases |s|
  {
    if s == "" {
      assert c + d == d && s + t == t;
    } else {
      assert (s + t)[1..] == s[1..] + t;
      if c == "" {
        assert c + d == d;
        SubsequenceConcat("", s[1..], d, t);
        assert "" + d == d;
      } else if Subsequence(c, s[1..]) {
        SubsequenceConcat(c, s[1..], d, t);
      } else {
        SubsequenceConcat(c[1..], s[1..], d, t);
        assert (c + d)[1..] == c[1..] + d;
      }
    }
  }

  lemma {:induction false} SubsequenceOfItself(s: string)
    ensures Subsequence(s, s)
  {
    if s != "" {
      SubsequenceOfItself(s[1..]);
    }
  }

  /** What is matched is the length of a common subsequence: the blocks' text, from left to right. */
  lemma {:induction false} MatchedText(a: string, b: string) returns (text: string)
    ensures |text| == MatchCount(a, b) && Subsequence(text, a) && Subsequence(text, b)
    decreases |a| + |b|
  {
    var k := Best(a, b);
    BestIsBest(a, b);
    if k.len == 0 {
      text := "";
    } else {
      var left := MatchedText(a[..k.i], b[..k.j]);
      var right := MatchedText(a[k.i + k.len..], b[k.j + k.len..]);
      text := Threaded(left, right, a, b, k);
    }
  }

  lemma {:induction false} Threaded(left: string, right: string, a: string, b: string, k: Block) returns (text: string)
    requires IsCommon(a, b, k)
    requires Subsequence(left, a[..k.i]) && Subsequence(left, b[..k.j])
    requires Subsequence(right, a[k.i + k.len..]) && Subsequence(right, b[k.j + k.len..])
    ensures |text| == |left| + k.len + |right| && Subsequence(text, a) && Subsequence(text, b)
  {
    text := left + a[k.i..k.i + k.len] + right;
    AroundBlock(left, right, a, k.i, k.i + k.len);
    AroundBlock(left, right, b, k.j, k.j + k.len);
  }

  lemma AroundBlock(left: string, right: string, s: string, i: nat, end: nat)
    requires i <= end <= |s| && Subsequence(left, s[..i]) && Subsequence(right, s[end..])
    ensures Subsequence(left + s[i..end] + right, s)
  {
    var block := s[i..end];
    SubsequenceOfItself(block);
    SubsequenceConcat(left, s[..i], block, block);
    SubsequenceConcat(left + block, s[..i] + block, right, s[end..]);
    assert s == s[..i] + block + s[end..];
  }

  /** The textbook recurrence for the longest common subsequence. */
  function LcsLength(a: string, b: string): nat
    decreases |a| + |b|
  {
    if a == "" || b == "" then 0
    else if a[0] == b[0] then 1 + LcsLength(a[1..], b[1..])
    else
      var x, y := LcsLength(a[1..], b), LcsLength(a, b[1..]);
      if x > y then x else y
  }

  lemma {:induction false} SubsequenceTail(c: string, s: string)
    requires c != "" && Subsequence(c, s)
    ensures s != "" && Subsequence(c[1..], s[1..])
    decreases |s|
  {
    if !(c[0] == s[0] && Subsequence(c[1..], s[1..])) {
      SubsequenceTail(c, s[1..]);
      SubsequenceLonger(c[1..], s[1..]);
    }
  }

  lemma {:induction false} SubsequenceLonger(c: string, s: string)
    requires s != "" && Subsequence(c, s[1..])
    ensures Subsequence(c, s)
  {
  }

  /** No common subsequence is longer than the recurrence says. */
  lemma {:induction false} LcsBounds(c: string, a: string, b: string)
    requires Subsequence(c, a) && Subsequence(c, b)
    ensures |c| <= LcsLength(a, b)
    decreases |a| + |b|
  {
    if c != "" {
      if a[0] == b[0] {
        SubsequenceTail(c, a);
        SubsequenceTail(c, b);
        LcsBounds(c[1..], a[1..], b[1..]);
      } else if c[0] != a[0] {
        LcsBounds(c, a[1..], b);
      } else {
        LcsBounds(c, a, b[1..]);
      }
    }
  }

  /**
   * The number of matching runes is at least the length of every common substring and at most the length of the
   * longest common subsequence.
   */
  lemma {:induction false} MatchedBetween(a: string, b: string, k: Block)
    requires IsCommon(a, b, k)
    ensures k.len <= MatchCount(a, b) <= LcsLength(a, b)
    ensures LcsLength(a, b) <= |a| && LcsLength(a, b) <= |b|
  {
    BestIsBest(a, b);
    var text := MatchedText(a, b);
    LcsBounds(text, a, b);
    LcsAtMost(a, b);
  }

  lemma CommonShares(a: string, b: string, k: Block)
    requires IsCommon(a, b, k) && k.len > 0
    ensures exists c :: c in a && c in b
  {
    assert a[k.i] == a[k.i..k.i + k.len][0] == b[k.j..k.j + k.len][0] == b[k.j];
    assert a[k.i] in a && a[k.i] in b;
  }

  lemma SharedIsCommon(a: string, b: string, c: char)
    requires c in a && c in b
    ensures exists i, j :: IsCommon(a, b, Block(i, j, 1))
  {
    var i :| 0 <= i < |a| && a[i] == c;
    var j :| 0 <= j < |b| && b[j] == c;
    assert a[i..i + 1] == [c] == b[j..j + 1];
    assert IsCommon(a, b, Block(i, j, 1));
  }

  /** Nothing is matched exactly when the texts share no character. */
  lemma NothingMatchedIff(a: string, b: string)
    ensures MatchCount(a, b) == 0 <==> forall c :: c in a ==> c !in b
  {
    BestIsBest(a, b);
    if Best(a, b).len > 0 { CommonShares(a, b, Best(a, b)); }
    forall c | c in a && c in b ensures MatchCount(a, b) >= 1 {
      SharedIsCommon(a, b, c);
      var i, j :| IsCommon(a, b, Block(i, j, 1));
      MatchedBetween(a, b, Block(i, j, 1));
    }
  }

  /** Some common subsequence is as long as the recurrence says: it is the length of the longest one. */
  lemma {:induction false} LcsAttained(a: string, b: string) returns (c: string)
    ensures |c| == LcsLength(a, b) && Subsequence(c, a) && Subsequence(c, b)
    decreases |a| + |b|
  {
    if a == "" || b == "" {
      c := "";
    } else if a[0] == b[0] {
      var tail := LcsAttained(a[1..], b[1..]);
      c := [a[0]] + tail;
      assert c[1..] == tail;
    } else if LcsLength(a[1..], b) > LcsLength(a, b[1..]) {
      c := LcsAttained(a[1..], b);
      SubsequenceLonger(c, a);
    } else {
      c := LcsAttained(a, b[1..]);
      SubsequenceLonger(c, b);
    }
  }

  lemma {:induction false} LcsAtMost(a: string, b: string)
    ensures LcsLength(a, b) <= |a| && LcsLength(a, b) <= |b|
    decreases |a| + |b|
  {
    if a != "" && b != "" {
      if a[0] == b[0] {
        LcsAtMost(a[1..], b[1..]);
      } else {
        LcsAtMost(a[1..], b);
        LcsAtMost(a, b[1..]);
      }
    }
  }

  lemma {:induction false} FullSubsequence(c: string, s: string)
    requires Subsequence(c, s) && |c| >= |s|
    ensures c == s
  {
    if c != "" {
      SubsequenceTail(c, s);
      FullSubsequence(c[1..], s[1..]);
      if c[0] != s[0] {
        SubsequenceLength(c, s[1..]);
      }
      assert c == [c[0]] + c[1..] && s == [s[0]] + s[1..];
    }
  }

  lemma {:induction false} SubsequenceLength(c: string, s: string)
    requires Subsequence(c, s)
    ensures |c| <= |s|
  {
    if c != "" {
      SubsequenceTail(c, s);
      SubsequenceLength(c[1..], s[1..]);
    }
  }

  // --- which blocks are matched ---

  /** The two texts have no character in common. */
  ghost predicate NoShared(s: string, t: string) {
    forall c :: c in s ==> c !in t
  }

  predicate Bounds(a: string, b: string, al: nat, ah: nat, bl: nat, bh: nat) {
    al <= ah <= |a| && bl <= bh <= |b|
  }

  /** Block k, in the coordinates of the whole texts, is the best one of a[al..ah] and b[bl..bh]. */
  ghost predicate BestIn(a: string, b: string, al: nat, ah: nat, bl: nat, bh: nat, k: Block)
    requires Bounds(a, b, al, ah, bl, bh)
  {
    && al <= k.i && k.i + k.len <= ah && bl <= k.j && k.j + k.len <= bh
    && IsBest(a[al..ah], b[bl..bh], Block(k.i - al, k.j - bl, k.len))
  }

  /**
   * The blocks are what Ratcliff and Obershelp's method finds: none where nothing is shared, and otherwise the best
   * block of the segment, with such lists before it and behind it.
   */
  ghost predicate Splits(a: string, b: string, al: nat, ah: nat, bl: nat, bh: nat, ks: seq<Block>)
    requires Bounds(a, b, al, ah, bl, bh)
    decreases |ks|, 1
  {
    if ks == [] then NoShared(a[al..ah], b[bl..bh])
    else exists m: nat :: m < |ks| && SplitsAt(a, b, al, ah, bl, bh, ks, m)
  }

  ghost predicate SplitsAt(a: string, b: string, al: nat, ah: nat, bl: nat, bh: nat, ks: seq<Block>, m: nat)
    requires Bounds(a, b, al, ah, bl, bh) && m < |ks|
    decreases |ks|, 0
  {
    var k := ks[m];
    && k.len > 0 && BestIn(a, b, al, ah, bl, bh, k)
    && Splits(a, b, al, k.i, bl, k.j, ks[..m])
    && Splits(a, b, k.i + k.len, ah, k.j + k.len, bh, ks[m + 1..])
  }

  function Total(ks: seq<Block>): nat {
    if ks == [] then 0 else ks[0].len + Total(ks[1..])
  }

  lemma {:induction false} TotalAround(left: seq<Block>, k: Block, right: seq<Block>)
    ensures Total(left + [k] + right) == Total(left) + k.len + Total(right)
  {
    if left == [] {
      assert left + [k] + right == [k] + right;
      assert ([k] + right)[1..] == right;
    } else {
      TotalAround(left[1..], k, right);
      assert (left + [k] + right)[1..] == left[1..] + [k] + right;
    }
  }

  lemma SegmentOf(s: string, lo: nat, hi: nat, i: nat, j: nat)
    requires lo <= hi <= |s| && i <= j <= hi - lo
    ensures s[lo..hi][i..j] == s[lo + i..lo + j]
  {
    var seg := s[lo..hi];
    assert forall k :: 0 <= k < |seg| ==> seg[k] == s[lo + k];
  }

  lemma Segments(s: string, lo: nat, hi: nat, i: nat, end: nat)
    requires lo <= hi <= |s| && i <= end <= hi - lo
    ensures s[lo..hi][..i] == s[lo..lo + i] && s[lo..hi][end..] == s[lo + end..hi]
  {
    SegmentOf(s, lo, hi, 0, i);
    SegmentOf(s, lo, hi, end, hi - lo);
    assert s[lo..hi][end..hi - lo] == s[lo..hi][end..];
  }

  lemma JoinBlocks(a: string, b: string, al: nat, ah: nat, bl: nat, bh: nat, left: seq<Block>, k: Block, right: seq<Block>)
    requires Bounds(a, b, al, ah, bl, bh) && BestIn(a, b, al, ah, bl, bh, k) && k.len > 0
    requires Splits(a, b, al, k.i, bl, k.j, left) && Splits(a, b, k.i + k.len, ah, k.j + k.len, bh, right)
    ensures Splits(a, b, al, ah, bl, bh, left + [k] + right)
  {
    var ks := left + [k] + right;
    assert ks[..|left|] == left && ks[|left|] == k && ks[|left| + 1..] == right;
    assert SplitsAt(a, b, al, ah, bl, bh, ks, |left|);
  }

  lemma {:induction false} CountHere(s: string, t: string, k: Block)
    requires k == Best(s, t)
    ensures k.i + k.len <= |s| && k.j + k.len <= |t|
    ensures MatchCount(s, t) == if k.len == 0 then 0
      else k.len + MatchCount(s[..k.i], t[..k.j]) + MatchCount(s[k.i + k.len..], t[k.j + k.len..])
  {
    BestFits(s, t);
  }

  /** The count splits around the best block, given the texts before and behind it. */
  lemma {:induction false} CountAround(s: string, t: string, k: Block, sl: string, tl: string, sr: string, tr: string)
    requires k == Best(s, t) && k.len > 0 && k.i + k.len <= |s| && k.j + k.len <= |t|
    requires sl == s[..k.i] && tl == t[..k.j] && sr == s[k.i + k.len..] && tr == t[k.j + k.len..]
    ensures MatchCount(s, t) == k.len + MatchCount(sl, tl) + MatchCount(sr, tr)
  {
    CountHere(s, t, k);
  }

  lemma NoBestBlock(s: string, t: string)
    requires Best(s, t).len == 0
    ensures NoShared(s, t) && MatchCount(s, t) == 0
  {
    NothingMatchedIff(s, t);
  }

  lemma BestThere(a: string, b: string, al: nat, ah: nat, bl: nat, bh: nat, best: Block) returns (k: Block)
    requires Bounds(a, b, al, ah, bl, bh) && IsBest(a[al..ah], b[bl..bh], best)
    ensures k == Block(al + best.i, bl + best.j, best.len) && BestIn(a, b, al, ah, bl, bh, k)
    ensures a[al..ah][..best.i] == a[al..k.i] && b[bl..bh][..best.j] == b[bl..k.j]
    ensures a[al..ah][best.i + best.len..] == a[k.i + k.len..ah] && b[bl..bh][best.j + best.len..] == b[k.j + k.len..bh]
  {
    k := Block(al + best.i, bl + best.j, best.len);
    Segments(a, al, ah, best.i, best.i + best.len);
    Segments(b, bl, bh, best.j, best.j + best.len);
    assert Block(k.i - al, k.j - bl, k.len) == best;
  }

  lemma FindBest(a: string, b: string, al: nat, ah: nat, bl: nat, bh: nat) returns (k: Block)
    requires Bounds(a, b, al, ah, bl, bh)
    ensures if k.len == 0 then NoShared(a[al..ah], b[bl..bh]) else BestIn(a, b, al, ah, bl, bh, k)
  {
    var best := Best(a[al..ah], b[bl..bh]);
    BestIsBest(a[al..ah], b[bl..bh]);
    k := BestThere(a, b, al, ah, bl, bh, best);
    if k.len == 0 { NoBestBlock(a[al..ah], b[bl..bh]); }
  }

  lemma {:induction false} BlocksOf(a: string, b: string, al: nat, ah: nat, bl: nat, bh: nat) returns (ks: seq<Block>)
    requires Bounds(a, b, al, ah, bl, bh)
    ensures Splits(a, b, al, ah, bl, bh, ks)
    decreases ah - al + bh - bl
  {
    var k := FindBest(a, b, al, ah, bl, bh);
    if k.len == 0 {
      ks := [];
    } else {
      var left := BlocksOf(a, b, al, k.i, bl, k.j);
      var right := BlocksOf(a, b, k.i + k.len, ah, k.j + k.len, bh);
      ks := left + [k] + right;
      JoinBlocks(a, b, al, ah, bl, bh, left, k, right);
    }
  }

  /** How the count of a segment splits around its best block. */
  lemma CountThere(a: string, b: string, al: nat, ah: nat, bl: nat, bh: nat, k: Block, before: nat, behind: nat)
    requires Bounds(a, b, al, ah, bl, bh) && BestIn(a, b, al, ah, bl, bh, k) && k.len > 0
    requires before == MatchCount(a[al..k.i], b[bl..k.j])
    requires behind == MatchCount(a[k.i + k.len..ah], b[k.j + k.len..bh])
    ensures MatchCount(a[al..ah], b[bl..bh]) == k.len + before + behind
  {
    var s, t, best := a[al..ah], b[bl..bh], Block(k.i - al, k.j - bl, k.len);
    BestIsBest(s, t);
    BestIsUnique(s, t, best, Best(s, t));
    var there := BestThere(a, b, al, ah, bl, bh, best);
    CountAround(s, t, best, a[al..k.i], b[bl..k.j], a[k.i + k.len..ah], b[k.j + k.len..bh]);
  }

  lemma TotalAt(ks: seq<Block>, m: nat)
    requires m < |ks|
    ensures Total(ks) == ks[m].len + Total(ks[..m]) + Total(ks[m + 1..])
  {
    TotalAround(ks[..m], ks[m], ks[m + 1..]);
    assert ks == ks[..m] + [ks[m]] + ks[m + 1..];
  }

  lemma {:induction false} CountIsTotal(a: string, b: string, al: nat, ah: nat, bl: nat, bh: nat, ks: seq<Block>)
    requires Bounds(a, b, al, ah, bl, bh) && Splits(a, b, al, ah, bl, bh, ks)
    ensures MatchCount(a[al..ah], b[bl..bh]) == Total(ks)
    decreases |ks|, 1
  {
    if ks == [] {
      NothingMatchedIff(a[al..ah], b[bl..bh]);
    } else {
      var m: nat :| m < |ks| && SplitsAt(a, b, al, ah, bl, bh, ks, m);
      CountAtIsTotal(a, b, al, ah, bl, bh, ks, m);
    }
  }

  lemma {:induction false} CountAtIsTotal(a: string, b: string, al: nat, ah: nat, bl: nat, bh: nat, ks: seq<Block>, m: nat)
    requires Bounds(a, b, al, ah, bl, bh) && m < |ks| && SplitsAt(a, b, al, ah, bl, bh, ks, m)
    ensures MatchCount(a[al..ah], b[bl..bh]) == Total(ks)
    decreases |ks|, 0
  {
    var k := ks[m];
    CountIsTotal(a, b, al, k.i, bl, k.j, ks[..m]);
    CountIsTotal(a, b, k.i + k.len, ah, k.j + k.len, bh, ks[m + 1..]);
    TotalAt(ks, m);
    CountThere(a, b, al, ah, bl, bh, k, Total(ks[..m]), Total(ks[m + 1..]));
  }

  /** Every block lies in the segment, and each ends before the next begins, in both texts. */
  ghost predicate InOrder(ks: seq<Block>, al: nat, ah: nat, bl: nat, bh: nat) {
    && (forall i :: 0 <= i < |ks| ==>
          ks[i].len > 0 && al <= ks[i].i && ks[i].i + ks[i].len <= ah && bl <= ks[i].j && ks[i].j + ks[i].len <= bh)
    && (forall i, j :: 0 <= i < j < |ks| ==> ks[i].i + ks[i].len <= ks[j].i && ks[i].j + ks[i].len <= ks[j].j)
  }

  ghost predicate AllCommon(a: string, b: string, ks: seq<Block>) {
    forall i :: 0 <= i < |ks| ==> IsCommon(a, b, ks[i])
  }

  lemma BestIsCommonThere(a: string, b: string, al: nat, ah: nat, bl: nat, bh: nat, k: Block)
    requires Bounds(a, b, al, ah, bl, bh) && BestIn(a, b, al, ah, bl, bh, k)
    ensures IsCommon(a, b, k)
  {
    SegmentOf(a, al, ah, k.i - al, k.i - al + k.len);
    SegmentOf(b, bl, bh, k.j - bl, k.j - bl + k.len);
  }

  lemma {:induction false} SplitsInOrder(a: string, b: string, al: nat, ah: nat, bl: nat, bh: nat, ks: seq<Block>)
    requires Bounds(a, b, al, ah, bl, bh) && Splits(a, b, al, ah, bl, bh, ks)
    ensures InOrder(ks, al, ah, bl, bh) && AllCommon(a, b, ks)
    decreases |ks|
  {
    if ks != [] {
      var m: nat :| m < |ks| && SplitsAt(a, b, al, ah, bl, bh, ks, m);
      var k := ks[m];
      BestIsCommonThere(a, b, al, ah, bl, bh, k);
      SplitsInOrder(a, b, al, k.i, bl, k.j, ks[..m]);
      SplitsInOrder(a, b, k.i + k.len, ah, k.j + k.len, bh, ks[m + 1..]);
      OrderAround(ks, m, al, ah, bl, bh);
      CommonAround(a, b, ks, m);
    }
  }

  lemma CommonAround(a: string, b: string, ks: seq<Block>, m: nat)
    requires m < |ks| && AllCommon(a, b, ks[..m]) && IsCommon(a, b, ks[m]) && AllCommon(a, b, ks[m + 1..])
    ensures AllCommon(a, b, ks)
  {
    assert forall i :: 0 <= i < m ==> ks[i] == ks[..m][i];
    assert forall i :: m < i < |ks| ==> ks[i] == ks[m + 1..][i - m - 1];
  }

  lemma OrderAround(ks: seq<Block>, m: nat, al: nat, ah: nat, bl: nat, bh: nat)
    requires m < |ks| && ks[m].len > 0 && al <= ks[m].i && bl <= ks[m].j && ks[m].i + ks[m].len <= ah && ks[m].j + ks[m].len <= bh
    requires InOrder(ks[..m], al, ks[m].i, bl, ks[m].j)
    requires InOrder(ks[m + 1..], ks[m].i + ks[m].len, ah, ks[m].j + ks[m].len, bh)
    ensures InOrder(ks, al, ah, bl, bh)
  {
    var left, right := ks[..m], ks[m + 1..];
    assert forall i :: 0 <= i < m ==> ks[i] == left[i];
    assert forall i :: m < i < |ks| ==> ks[i] == right[i - m - 1];
  }

  /** Where gap g begins and ends, in both texts: before the first block, between two neighbours, after the last. */
  function GapStart(ks: seq<Block>, g: nat, al: nat, bl: nat): (nat, nat)
    requires g <= |ks|
  {
    if g == 0 then (al, bl) else (ks[g - 1].i + ks[g - 1].len, ks[g - 1].j + ks[g - 1].len)
  }

  function GapEnd(ks: seq<Block>, g: nat, ah: nat, bh: nat): (nat, nat)
    requires g <= |ks|
  {
    if g == |ks| then (ah, bh) else (ks[g].i, ks[g].j)
  }

  ghost predicate GapIsEmpty(a: string, b: string, from: (nat, nat), to: (nat, nat)) {
    && from.0 <= to.0 <= |a| && from.1 <= to.1 <= |b|
    && NoShared(a[from.0..to.0], b[from.1..to.1])
  }

  lemma {:induction false} SplitsGaps(a: string, b: string, al: nat, ah: nat, bl: nat, bh: nat, ks: seq<Block>, g: nat)
    requires Bounds(a, b, al, ah, bl, bh) && Splits(a, b, al, ah, bl, bh, ks) && g <= |ks|
    ensures GapIsEmpty(a, b, GapStart(ks, g, al, bl), GapEnd(ks, g, ah, bh))
    decreases |ks|
  {
    if ks != [] {
      var m: nat :| m < |ks| && SplitsAt(a, b, al, ah, bl, bh, ks, m);
      var k := ks[m];
      if g <= m {
        SplitsGaps(a, b, al, k.i, bl, k.j, ks[..m], g);
      } else {
        SplitsGaps(a, b, k.i + k.len, ah, k.j + k.len, bh, ks[m + 1..], g - m - 1);
      }
    }
  }

  lemma EmptyOrShared(a: string, b: string, al: nat, ah: nat, bl: nat, bh: nat, k: Block)
    requires Bounds(a, b, al, ah, bl, bh) && BestIn(a, b, al, ah, bl, bh, k) && k.len > 0
    ensures !NoShared(a[al..ah], b[bl..bh])
  {
    CommonShares(a[al..ah], b[bl..bh], Block(k.i - al, k.j - bl, k.len));
  }

  lemma BestInIsUnique(a: string, b: string, al: nat, ah: nat, bl: nat, bh: nat, k: Block, l: Block)
    requires Bounds(a, b, al, ah, bl, bh) && BestIn(a, b, al, ah, bl, bh, k) && BestIn(a, b, al, ah, bl, bh, l)
    ensures k == l
  {
    BestIsUnique(a[al..ah], b[bl..bh], Block(k.i - al, k.j - bl, k.len), Block(l.i - al, l.j - bl, l.len));
  }

  lemma SameParts(ks: seq<Block>, ls: seq<Block>, m: nat, n: nat)
    requires m < |ks| && n < |ls| && ks[..m] == ls[..n] && ks[m] == ls[n] && ks[m + 1..] == ls[n + 1..]
    ensures ks == ls
  {
    assert ks == ks[..m] + [ks[m]] + ks[m + 1..];
    assert ls == ls[..n] + [ls[n]] + ls[n + 1..];
  }

  lemma NotBoth(a: string, b: string, al: nat, ah: nat, bl: nat, bh: nat, ks: seq<Block>)
    requires Bounds(a, b, al, ah, bl, bh) && Splits(a, b, al, ah, bl, bh, ks)
    ensures ks == [] <==> NoShared(a[al..ah], b[bl..bh])
  {
    if ks != [] {
      var m: nat :| m < |ks| && SplitsAt(a, b, al, ah, bl, bh, ks, m);
      EmptyOrShared(a, b, al, ah, bl, bh, ks[m]);
    }
  }

  /** There is only one such list. */
  lemma {:induction false} SplitsIsUnique(a: string, b: string, al: nat, ah: nat, bl: nat, bh: nat, ks: seq<Block>, ls: seq<Block>)
    requires Bounds(a, b, al, ah, bl, bh) && Splits(a, b, al, ah, bl, bh, ks) && Splits(a, b, al, ah, bl, bh, ls)
    ensures ks == ls
    decreases |ks|, 1
  {
    NotBoth(a, b, al, ah, bl, bh, ks);
    NotBoth(a, b, al, ah, bl, bh, ls);
    if ks != [] {
      var m: nat :| m < |ks| && SplitsAt(a, b, al, ah, bl, bh, ks, m);
      var n: nat :| n < |ls| && SplitsAt(a, b, al, ah, bl, bh, ls, n);
      SplitsAtIsUnique(a, b, al, ah, bl, bh, ks, ls, m, n);
    }
  }

  lemma {:induction false} SplitsAtIsUnique(a: string, b: string, al: nat, ah: nat, bl: nat, bh: nat, ks: seq<Block>, ls: seq<Block>,
                                            m: nat, n: nat)
    requires Bounds(a, b, al, ah, bl, bh) && m < |ks| && n < |ls|
    requires SplitsAt(a, b, al, ah, bl, bh, ks, m) && SplitsAt(a, b, al, ah, bl, bh, ls, n)
    ensures ks == ls
    decreases |ks|, 0
  {
    var k := ks[m];
    BestInIsUnique(a, b, al, ah, bl, bh, k, ls[n]);
    SplitsIsUnique(a, b, al, k.i, bl, k.j, ks[..m], ls[..n]);
    SplitsIsUnique(a, b, k.i + k.len, ah, k.j + k.len, bh, ks[m + 1..], ls[n + 1..]);
    SameParts(ks, ls, m, n);
  }

  /**
   * What is counted: common blocks, one behind the other in both texts, whose lengths add up to the count, with nothing
   * shared in any gap between them; each is the best of the segment it split.
   */
  lemma {:induction false} MatchedBlocks(a: string, b: string) returns (ks: seq<Block>)
    ensures InOrder(ks, 0, |a|, 0, |b|) && AllCommon(a, b, ks) && Total(ks) == MatchCount(a, b)
    ensures forall g: nat :: g <= |ks| ==> GapIsEmpty(a, b, GapStart(ks, g, 0, 0), GapEnd(ks, g, |a|, |b|))
    ensures Splits(a, b, 0, |a|, 0, |b|, ks)
  {
    assert a[0..|a|] == a && b[0..|b|] == b;
    ks := BlocksOf(a, b, 0, |a|, 0, |b|);
    CountIsTotal(a, b, 0, |a|, 0, |b|, ks);
    SplitsInOrder(a, b, 0, |a|, 0, |b|, ks);
    forall g: nat | g <= |ks| { SplitsGaps(a, b, 0, |a|, 0, |b|, ks, g); }
  }

  /** And nothing else is: the count is the total of the one list of blocks that the method describes. */
  lemma {:induction false} MatchCountIff(a: string, b: string, n: nat)
    ensures n == MatchCount(a, b) <==> exists ks :: Splits(a, b, 0, |a|, 0, |b|, ks) && Total(ks) == n
  {
    var ks := MatchedBlocks(a, b);
    forall ls | Splits(a, b, 0, |a|, 0, |b|, ls) ensures ls == ks {
      SplitsIsUnique(a, b, 0, |a|, 0, |b|, ks, ls);
    }
  }

  // --- similarity and the suggestion ---

  function Ratio(n: nat, total: nat): real {
    if total == 0 then 1.0 else 2.0 * n as real / total as real
  }

  function Similarity(a: string, b: string): real {
    Ratio(MatchCount(a, b), |a| + |b|)
  }

  method SimilarityOf(a: string, b: string) returns (r: real)
    ensures r == Similarity(a, b)
  {
    var total := |a| + |b|;
    if total == 0 {
      return 1.0;
    }
    var n := MatchingRunes(a, b);
    r := 2.0 * n as real / total as real;
  }

  lemma RatioBounds(x: real, y: real)
    requires 0.0 <= x <= y && y > 0.0
    ensures 0.0 <= x / y <= 1.0 && (x / y == 1.0 <==> x == y)
  {
  }

  lemma RatioOfCounts(n: nat, total: nat)
    requires 2 * n <= total
    ensures 0.0 <= Ratio(n, total) <= 1.0 && (Ratio(n, total) == 1.0 <==> 2 * n == total)
    ensures Ratio(n, total) * total as real == 2.0 * n as real
  {
    if total > 0 {
      assert 2.0 * n as real == (2 * n) as real;
      RatioBounds((2 * n) as real, total as real);
    }
  }

  /** The count reaches the mean length exactly when the texts are equal. */
  lemma {:induction false} AllMatchedIffEqual(a: string, b: string)
    ensures 2 * MatchCount(a, b) <= |a| + |b|
    ensures 2 * MatchCount(a, b) == |a| + |b| <==> a == b
  {
    assert IsCommon(a, b, Block(0, 0, 0));
    MatchedBetween(a, b, Block(0, 0, 0));
    if 2 * MatchCount(a, b) == |a| + |b| {
      var text := MatchedText(a, b);
      FullSubsequence(text, a);
      FullSubsequence(text, b);
    }
    if a == b {
      assert IsCommon(a, b, Block(0, 0, |a|));
      MatchedBetween(a, b, Block(0, 0, |a|));
    }
  }

  /** The score lies in [0, 1], and is 1 exactly for equal texts. */
  lemma SimilarityRange(a: string, b: string)
    ensures 0.0 <= Similarity(a, b) <= 1.0
    ensures Similarity(a, b) == 1.0 <==> a == b
  {
    AllMatchedIffEqual(a, b);
    RatioOfCounts(MatchCount(a, b), |a| + |b|);
  }

  /** It is the share of both texts' characters that is matched. */
  lemma SimilarityIsShare(a: string, b: string)
    ensures a + b != "" ==> Similarity(a, b) == (MatchCount(a, b) + MatchCount(a, b)) as real / |a + b| as real
  {
    if a + b != "" {
      assert 2.0 * MatchCount(a, b) as real == (MatchCount(a, b) + MatchCount(a, b)) as real;
    }
  }

  lemma BestOfEd()
    ensures Best("ed", "d") == Block(1, 0, 1)
  {
    assert Scan("ed", "d", 2, 1) == Block(1, 0, 1);
  }

  lemma BestOfNed()
    ensures Best("ned", "end") == Block(0, 1, 1)
  {
    assert Scan("ned", "end", 3, 3) == Block(0, 1, 1);
  }

  lemma BestOfSned()
    ensures Best("sned", "send") == Block(0, 0, 1)
  {
    assert Scan("sned", "send", 4, 4) == Block(0, 0, 1);
  }

  lemma {:induction false} TypoCount()
    ensures MatchCount("sned", "send") == 3
  {
    BestOfEd();
    BestOfNed();
    BestOfSned();
    NothingMatchedIff("", "");
    NothingMatchedIff("", "e");
    NothingMatchedIff("e", "");
    CountAround("ed", "d", Block(1, 0, 1), "e", "", "", "");
    CountAround("ned", "end", Block(0, 1, 1), "", "e", "ed", "d");
    CountAround("sned", "send", Block(0, 0, 1), "", "", "ned", "end");
  }

  /** Two letters exchanged: three of four characters are matched, and the score is 0.75. */
  lemma TypoIsCaught(typo: string, word: string)
    requires typo == "sned" && word == "send"
    ensures MatchCount(typo, word) == 3 && Similarity(typo, word) == 0.75
  {
    TypoCount();
    assert Ratio(3, 8) == 0.75;
  }

  function Score(value: string, candidate: string, lower: string -> string): real {
    Similarity(lower(value), lower(candidate))
  }

  const CUTOFF := 0.6

  /**
   * The first of the candidates that are most similar to the value, both in lower case, provided that is at least 0.6;
   * otherwise "". `lower` stands for strings.ToLower.
   */
  method ClosestMatch(value: string, candidates: seq<string>, lower: string -> string) returns (r: string)
    ensures (exists i :: 0 <= i < |candidates| && Similarity(lower(value), lower(candidates[i])) >= 0.6) ==>
      exists k :: 0 <= k < |candidates| && r == candidates[k]
        && (forall i :: 0 <= i < |candidates| ==>
              Similarity(lower(value), lower(candidates[i])) <= Similarity(lower(value), lower(candidates[k])))
        && (forall i :: 0 <= i < k ==>
              Similarity(lower(value), lower(candidates[i])) < Similarity(lower(value), lower(candidates[k])))
    ensures (forall i :: 0 <= i < |candidates| ==> Similarity(lower(value), lower(candidates[i])) < 0.6) ==> r == ""
  {
    var best := "";
    var bestScore := 0.0;
    ghost var at := 0;
    for i := 0 to |candidates|
      invariant bestScore >= 0.0
      invariant forall x :: 0 <= x < i ==> Score(value, candidates[x], lower) <= bestScore
      invariant bestScore > 0.0 ==> 0 <= at < i && best == candidates[at] && bestScore == Score(value, candidates[at], lower)
      invariant bestScore > 0.0 ==> forall x :: 0 <= x < at ==> Score(value, candidates[x], lower) < bestScore
    {
      var score := SimilarityOf(lower(value), lower(candidates[i]));
      if score > bestScore {
        best, bestScore, at := candidates[i], score, i;
      }
    }
    if bestScore < CUTOFF {
      return "";
    }
    assert bestScore == Similarity(lower(value), lower(candidates[at]));
    return best;
  }
}
