/**
 * The analysis summary card: the rounded average score and the strongest
 * and weakest categories after a stable sort by score, largest first.
 */
module Summary {
  import opened Wrappers
  import opened Strings
  import opened Sorting
  import opened Catalog

  /** `analysisResults?.categories || {}`. */
  function CardCategories(categories: Option<Scores>): Scores {
    categories.GetOr([])
  }

  function Sum(cats: Scores): int {
    if cats == [] then 0 else Sum(cats[..|cats| - 1]) + cats[|cats| - 1].1
  }

  /** `Math.round(num / den)`: JavaScript rounds halves upwards. */
  function RoundDiv(num: int, den: nat): (r: int)
    requires den > 0
    ensures 2 * den * r - den <= 2 * num < 2 * den * r + den
  {
    (2 * num + den) / (2 * den)
  }

  /** `averageScore`: the rounded mean of the values, 0 without categories. */
  function Average(cats: Scores): int {
    if |cats| > 0 then RoundDiv(Sum(cats), |cats|) else 0
  }

  function Score(e: (string, int)): int { e.1 }

  /** `sortedCategories`: a sorted copy, largest score first, ties in key order. */
  function SortedCategories(cats: Scores): Scores {
    SortDesc(cats, Score)
  }

  function Strongest(cats: Scores): Option<(string, int)> {
    var sorted := SortedCategories(cats);
    if |sorted| > 0 then Some(sorted[0]) else None
  }

  function Weakest(cats: Scores): Option<(string, int)> {
    var sorted := SortedCategories(cats);
    if |sorted| > 0 then Some(sorted[|sorted| - 1]) else None
  }

  /** The text shown for a dimension: the capitalised key and its score, or "N/A". */
  function DimensionText(e: Option<(string, int)>): string {
    match e
    case None => "N/A"
    case Some((key, value)) => Capitalize(key) + " (" + IntToString(value) + "%)"
  }

  lemma {:induction false} SumBounds(cats: Scores, lo: int, hi: int)
    requires forall i :: 0 <= i < |cats| ==> lo <= cats[i].1 <= hi
    ensures lo * |cats| <= Sum(cats) <= hi * |cats|
  {
    if cats != [] {
      var init := cats[..|cats| - 1];
      assert forall i :: 0 <= i < |init| ==> init[i] == cats[i];
      SumBounds(init, lo, hi);
      assert Sum(cats) == Sum(init) + cats[|cats| - 1].1;
      assert lo * |cats| == lo * |init| + lo && hi * |cats| == hi * |init| + hi;
    }
  }

  lemma MulMono(a: int, b: int, d: nat)
    requires a <= b
    ensures a * d <= b * d
  {
    var k := b - a;
    assert b * d == a * d + k * d;
  }

  /** A rounded quotient stays within the bounds the dividend allows. */
  lemma RoundBounds(num: int, den: nat, lo: int, hi: int)
    requires den > 0 && lo * den <= num <= hi * den
    ensures lo <= RoundDiv(num, den) <= hi
  {
    var r := RoundDiv(num, den);
    if r < lo {
      MulMono(r, lo - 1, 2 * den);
    }
    if r > hi {
      MulMono(hi + 1, r, 2 * den);
    }
  }

  /** The average lies between the smallest and the largest bound of the values. */
  lemma AverageBounds(cats: Scores, lo: int, hi: int)
    requires |cats| > 0
    requires forall i :: 0 <= i < |cats| ==> lo <= cats[i].1 <= hi
    ensures lo <= Average(cats) <= hi
  {
    SumBounds(cats, lo, hi);
    RoundBounds(Sum(cats), |cats|, lo, hi);
  }

  /** Equal values average to that value. */
  lemma AverageOfEqual(cats: Scores, v: int)
    requires |cats| > 0 && forall i :: 0 <= i < |cats| ==> cats[i].1 == v
    ensures Average(cats) == v
  {
    AverageBounds(cats, v, v);
  }

  /** Missing results count as an empty score map: average 0, and "N/A" for both dimensions. */
  lemma NoCategories()
    ensures CardCategories(None) == []
    ensures Average(CardCategories(None)) == 0
    ensures DimensionText(Strongest(CardCategories(None))) == "N/A"
    ensures DimensionText(Weakest(CardCategories(None))) == "N/A"
  {
  }

  /** Both dimensions are shown exactly when there are categories. */
  lemma DimensionsPresent(cats: Scores)
    ensures Strongest(cats).Some? <==> |cats| > 0
    ensures Weakest(cats).Some? <==> |cats| > 0
  {
  }

  /** The strongest category has the largest score and is the first such in key order. */
  lemma StrongestIsMax(cats: Scores)
    requires |cats| > 0
    ensures exists i :: 0 <= i < |cats| && Strongest(cats) == Some(cats[i])
              && (forall j :: 0 <= j < |cats| ==> cats[j].1 <= cats[i].1)
              && (forall j :: 0 <= j < i ==> cats[j].1 < cats[i].1)
  {
    SortDescFirst(cats, Score);
  }

  /** The weakest category has the smallest score and is the last such in key order. */
  lemma WeakestIsMin(cats: Scores)
    requires |cats| > 0
    ensures exists i :: 0 <= i < |cats| && Weakest(cats) == Some(cats[i])
              && (forall j :: 0 <= j < |cats| ==> cats[j].1 >= cats[i].1)
              && (forall j :: i < j < |cats| ==> cats[j].1 > cats[i].1)
  {
    SortDescLast(cats, Score);
  }

  /** The sort works on a copy: the card's score map itself keeps its order and content. */
  lemma SortIsPermutation(cats: Scores)
    ensures multiset(SortedCategories(cats)) == multiset(cats)
    ensures forall i, j :: 0 <= i < j < |cats| ==> SortedCategories(cats)[i].1 >= SortedCategories(cats)[j].1
  {
    SortDescSorted(cats, Score);
  }
}
