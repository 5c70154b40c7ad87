/** The `list.sort(key=lambda x: x[1], reverse=True)` step shared by the
    similarity and keyword searches. Each scored entry carries its position in
    the table it came from; Python's sort is stable (also with `reverse=True`),
    so the result is ordered by score, highest first, and by position among
    equal scores. `SortDesc` is a reference stable sort; the lemma
    `SortDescOrdered` shows it produces exactly that order. */
module Ranking {
  import opened Common

  datatype Ranked = Ranked(pos: nat, score: int)

  /** `a` comes before `b` in the sorted list. */
  predicate Before(a: Ranked, b: Ranked) {
    a.score > b.score || (a.score == b.score && a.pos < b.pos)
  }

  predicate RankedOrder(r: seq<Ranked>) {
    forall i, j :: 0 <= i < j < |r| ==> Before(r[i], r[j])
  }

  /** Entries appended in table order have increasing positions. */
  predicate PositionsIncreasing(xs: seq<Ranked>) {
    forall i, j :: 0 <= i < j < |xs| ==> xs[i].pos < xs[j].pos
  }

  /** Puts `x` after every entry whose score is at least its own. */
  function InsertDesc(sorted: seq<Ranked>, x: Ranked): (r: seq<Ranked>)
    ensures multiset(r) == multiset(sorted) + multiset{x}
    ensures |r| == |sorted| + 1
  {
    if sorted == [] then [x]
    else if sorted[|sorted| - 1].score >= x.score then sorted + [x]
    else
      var last := sorted[|sorted| - 1];
      assert sorted == sorted[..|sorted| - 1] + [last];
      InsertDesc(sorted[..|sorted| - 1], x) + [last]
  }

  /** Stable sort by descending score. */
  function SortDesc(xs: seq<Ranked>): (r: seq<Ranked>)
    ensures multiset(r) == multiset(xs)
    ensures |r| == |xs|
  {
    if xs == [] then []
    else
      assert xs == xs[..|xs| - 1] + [xs[|xs| - 1]];
      InsertDesc(SortDesc(xs[..|xs| - 1]), xs[|xs| - 1])
  }

  lemma {:induction false} InsertDescOrdered(sorted: seq<Ranked>, x: Ranked)
    requires RankedOrder(sorted)
    requires forall k :: 0 <= k < |sorted| ==> sorted[k].pos < x.pos
    ensures RankedOrder(InsertDesc(sorted, x))
  {
    if sorted != [] && sorted[|sorted| - 1].score < x.score {
      var init := sorted[..|sorted| - 1];
      var last := sorted[|sorted| - 1];
      InsertDescOrdered(init, x);
      var r' := InsertDesc(init, x);
      forall k | 0 <= k < |r'| ensures Before(r'[k], last) {
        assert r'[k] in multiset(r');
        if r'[k] != x {
          assert r'[k] in multiset(init);
          var j :| 0 <= j < |init| && init[j] == r'[k];
          assert sorted[j] == init[j];
        }
      }
    }
  }

  /** The reference sort yields the order "score descending, then table position". */
  lemma {:induction false} SortDescOrdered(xs: seq<Ranked>)
    requires PositionsIncreasing(xs)
    ensures RankedOrder(SortDesc(xs))
  {
    if xs != [] {
      var init := xs[..|xs| - 1];
      var x := xs[|xs| - 1];
      SortDescOrdered(init);
      var s := SortDesc(init);
      forall k | 0 <= k < |s| ensures s[k].pos < x.pos {
        assert s[k] in multiset(init);
        var j :| 0 <= j < |init| && init[j] == s[k];
      }
      InsertDescOrdered(s, x);
    }
  }

  /** The reference sort orders the entries and keeps exactly the same ones. */
  lemma SortDescSpec(xs: seq<Ranked>)
    requires PositionsIncreasing(xs)
    ensures RankedOrder(SortDesc(xs))
    ensures forall x :: x in SortDesc(xs) <==> x in xs
  {
    SortDescOrdered(xs);
    forall x ensures x in SortDesc(xs) <==> x in xs {
      assert x in SortDesc(xs) <==> x in multiset(SortDesc(xs));
      assert x in xs <==> x in multiset(xs);
    }
  }

  /** In an ordered list, the entries of a prefix rank before every entry
      outside it, and something is left outside only when the prefix is full. */
  lemma PrefixRanksFirst(s: seq<Ranked>, n: int)
    requires RankedOrder(s)
    ensures forall x, y :: x in s && x !in SlicePrefix(s, n) && y in SlicePrefix(s, n) ==> Before(y, x)
    ensures forall x :: x in s && x !in SlicePrefix(s, n) ==> (0 <= n ==> |SlicePrefix(s, n)| == n)
  {
    var kept := SlicePrefix(s, n);
    forall x, y | x in s && x !in kept && y in kept ensures Before(y, x) {
      var i :| 0 <= i < |s| && s[i] == x;
      var j :| 0 <= j < |kept| && kept[j] == y;
      assert s[j] == y;
    }
    forall x | x in s && x !in kept ensures 0 <= n ==> |kept| == n {
      var i :| 0 <= i < |s| && s[i] == x;
    }
  }

  /** Keeping only the first `n` entries of the sorted list (Python's `[:n]`)
      keeps the best ones: an entry left out comes after every entry kept, and
      for `n >= 0` something is left out only when `n` entries were kept. */
  lemma PrefixKeepsBest(c: seq<Ranked>, n: int)
    requires PositionsIncreasing(c)
    ensures RankedOrder(SlicePrefix(SortDesc(c), n))
    ensures forall y :: y in SlicePrefix(SortDesc(c), n) ==> y in c
    ensures forall x, y :: x in c && x !in SlicePrefix(SortDesc(c), n) && y in SlicePrefix(SortDesc(c), n)
              ==> Before(y, x)
    ensures forall x :: x in c && x !in SlicePrefix(SortDesc(c), n) ==> (0 <= n ==> |SlicePrefix(SortDesc(c), n)| == n)
  {
    var sorted := SortDesc(c);
    SortDescSpec(c);
    PrefixRanksFirst(sorted, n);
  }
}
