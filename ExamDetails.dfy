/**
 * The per-exam submissions page (frontend/src/pages/ExamDetails.tsx): the summary statistics
 * over the students of the current page, the score colour and badge bands, the date cell and
 * the pagination buttons. Percentages are integers; `Math.round` of the mean is the exact
 * rounded quotient `RoundDiv`.
 */
module ExamDetails {
  import Js

  /** The statistics card: average, highest and lowest percentage. */
  datatype Stats = Stats(average: int, highest: int, lowest: int)

  function Sum(xs: seq<int>): int {
    if xs == [] then 0 else Sum(xs[..|xs| - 1]) + xs[|xs| - 1]
  }

  /** `Math.max(...xs)` on a non-empty list: an element that no element exceeds. */
  function Max(xs: seq<int>): (m: int)
    requires xs != []
    ensures m in xs
    ensures forall i :: 0 <= i < |xs| ==> xs[i] <= m
  {
    if |xs| == 1 then xs[0]
    else
      var init := xs[..|xs| - 1];
      var m0 := Max(init);
      assert forall i :: 0 <= i < |xs| - 1 ==> xs[i] == init[i];
      if xs[|xs| - 1] > m0 then xs[|xs| - 1] else m0
  }

  /** `Math.min(...xs)` on a non-empty list: an element that no element is below. */
  function Min(xs: seq<int>): (m: int)
    requires xs != []
    ensures m in xs
    ensures forall i :: 0 <= i < |xs| ==> m <= xs[i]
  {
    if |xs| == 1 then xs[0]
    else
      var init := xs[..|xs| - 1];
      var m0 := Min(init);
      assert forall i :: 0 <= i < |xs| - 1 ==> xs[i] == init[i];
      if xs[|xs| - 1] < m0 then xs[|xs| - 1] else m0
  }

  /** `calculateStats` over the students' percentages: all zero for an empty page, otherwise the
      rounded mean and the extremes. */
  function CalculateStats(percentages: seq<int>): (s: Stats)
    ensures percentages == [] ==> s == Stats(0, 0, 0)
    ensures percentages != [] ==>
              s.highest == Max(percentages) && s.lowest == Min(percentages)
              && 2 * Sum(percentages) - |percentages| < 2 * |percentages| * s.average
                 <= 2 * Sum(percentages) + |percentages|
  {
    if percentages == [] then Stats(0, 0, 0)
    else Stats(Js.RoundDiv(Sum(percentages), |percentages|), Max(percentages), Min(percentages))
  }

  /** Every element between `lo` and `hi` puts the sum between `n * lo` and `n * hi`. */
  lemma {:induction false} SumBounds(xs: seq<int>, lo: int, hi: int)
    requires forall i :: 0 <= i < |xs| ==> lo <= xs[i] <= hi
    ensures |xs| * lo <= Sum(xs) <= |xs| * hi
  {
    if xs != [] {
      var init := xs[..|xs| - 1];
      assert forall i :: 0 <= i < |init| ==> init[i] == xs[i];
      SumBounds(init, lo, hi);
    }
  }

  /** The statistics are ordered: lowest <= average <= highest. */
  lemma StatsOrdered(percentages: seq<int>)
    ensures CalculateStats(percentages).lowest <= CalculateStats(percentages).average
            <= CalculateStats(percentages).highest
  {
    if percentages != [] {
      var s := CalculateStats(percentages);
      SumBounds(percentages, s.lowest, s.highest);
      RoundedMeanBetween(|percentages|, Sum(percentages), s.lowest, s.highest, s.average);
    }
  }

  /** A mean rounded to the nearest integer stays between integer bounds of the elements. */
  lemma RoundedMeanBetween(n: int, total: int, lo: int, hi: int, r: int)
    requires n > 0 && n * lo <= total <= n * hi
    requires 2 * total - n < 2 * n * r <= 2 * total + n
    ensures lo <= r <= hi
  {
    assert 2 * n * (lo - 1) == 2 * (n * lo) - 2 * n;
    assert 2 * n * (hi + 1) == 2 * (n * hi) + 2 * n;
    Js.ProductOrder(2 * n, lo - 1, r);
    Js.ProductOrder(2 * n, r, hi + 1);
  }

  /** A page where every student has the same percentage shows it as average, highest and lowest. */
  lemma UniformStats(percentages: seq<int>, p: int)
    requires percentages != []
    requires forall i :: 0 <= i < |percentages| ==> percentages[i] == p
    ensures CalculateStats(percentages) == Stats(p, p, p)
  {
    var n := |percentages|;
    SumBounds(percentages, p, p);
    Js.RoundDivUnique(Sum(percentages), n, p);
  }

  /** The three score bands shared by the colour and the badge. */
  datatype ScoreBand = High | Medium | Low

  function BandOf(percentage: int): (b: ScoreBand)
    ensures b == High <==> percentage >= 80
    ensures b == Medium <==> 60 <= percentage < 80
    ensures b == Low <==> percentage < 60
  {
    if percentage >= 80 then High else if percentage >= 60 then Medium else Low
  }

  /** `getScoreColor`. */
  function ScoreColor(percentage: int): (c: string)
    ensures c == match BandOf(percentage)
                 case High => "text-green-400"
                 case Medium => "text-yellow-400"
                 case Low => "text-red-400"
  {
    if percentage >= 80 then "text-green-400"
    else if percentage >= 60 then "text-yellow-400"
    else "text-red-400"
  }

  /** `getScoreBadge`. */
  function ScoreBadge(percentage: int): (c: string)
    ensures c == match BandOf(percentage)
                 case High => "bg-green-500/20 text-green-100"
                 case Medium => "bg-yellow-500/20 text-yellow-100"
                 case Low => "bg-red-500/20 text-red-100"
  {
    if percentage >= 80 then "bg-green-500/20 text-green-100"
    else if percentage >= 60 then "bg-yellow-500/20 text-yellow-100"
    else "bg-red-500/20 text-red-100"
  }

  /** Colour and badge partition the percentages the same way: two percentages get the same
      colour exactly when they get the same badge. */
  lemma ColorAndBadgeAgree(p: int, q: int)
    ensures ScoreColor(p) == ScoreColor(q) <==> ScoreBadge(p) == ScoreBadge(q)
    ensures ScoreColor(p) == ScoreColor(q) <==> BandOf(p) == BandOf(q)
  {
  }

  /** What the date cell shows: the text itself, or a date parsed from it and shown by
      `toLocaleString`. */
  datatype DateCell = AsIs(text: string) | Localized(source: string)

  /** `formatDate`: a string containing '/' is taken as already formatted and returned unchanged. */
  function FormatDate(dateString: string): (c: DateCell)
    ensures c.AsIs? <==> '/' in dateString
    ensures c.AsIs? ==> c.text == dateString
    ensures c.Localized? ==> c.source == dateString
  {
    if dateString != "" && '/' in dateString then AsIs(dateString) else Localized(dateString)
  }

  /** The "Submitted" cell: `timestamp` when it is non-empty, otherwise `submitted_at`. */
  function SubmittedCell(timestamp: string, submittedAt: string): (c: DateCell)
    ensures timestamp != "" ==> c == FormatDate(timestamp)
    ensures timestamp == "" ==> c == FormatDate(submittedAt)
  {
    if timestamp != "" then FormatDate(timestamp) else FormatDate(submittedAt)
  }

  /** An already formatted date is shown exactly as stored. */
  lemma FormattedDateUnchanged(timestamp: string, submittedAt: string)
    requires timestamp != "" && '/' in timestamp
    ensures SubmittedCell(timestamp, submittedAt) == AsIs(timestamp)
  {
  }

  /** The pagination bar: shown only for more than one page. */
  predicate PagerShown(totalPages: int) { totalPages > 1 }

  predicate PreviousDisabled(currentPage: int) { currentPage == 1 }

  predicate NextDisabled(currentPage: int, totalPages: int) { currentPage == totalPages }

  /** The page a click leads to. */
  datatype PagerButton = PreviousButton | NextButton

  function ClickPage(currentPage: int, button: PagerButton): int {
    match button
    case PreviousButton => currentPage - 1
    case NextButton => currentPage + 1
  }

  predicate Enabled(currentPage: int, totalPages: int, button: PagerButton) {
    match button
    case PreviousButton => !PreviousDisabled(currentPage)
    case NextButton => !NextDisabled(currentPage, totalPages)
  }

  /** Starting from a page within 1..total, a click on an enabled button of the visible bar
      keeps the page within 1..total and moves it by one. */
  lemma PagingStaysInRange(currentPage: int, totalPages: int, button: PagerButton)
    requires PagerShown(totalPages) && 1 <= currentPage <= totalPages
    requires Enabled(currentPage, totalPages, button)
    ensures 1 <= ClickPage(currentPage, button) <= totalPages
    ensures ClickPage(currentPage, button) == currentPage + 1 || ClickPage(currentPage, button) == currentPage - 1
  {
  }

  /** Within the range, each button is disabled exactly at its own end of it. */
  lemma DisabledExactlyAtEnds(currentPage: int, totalPages: int)
    requires PagerShown(totalPages) && 1 <= currentPage <= totalPages
    ensures !Enabled(currentPage, totalPages, PreviousButton) <==> ClickPage(currentPage, PreviousButton) < 1
    ensures !Enabled(currentPage, totalPages, NextButton) <==> ClickPage(currentPage, NextButton) > totalPages
  {
  }
}
