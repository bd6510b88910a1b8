/** The whole recompute-on-change pipeline: from the dataset and the sidebar state to the values
    the aggregate expressions of the script take (the metric cards' inputs and the count tables). */
module Dashboard {
  import opened Wrappers
  import opened Records
  import opened Filter
  import opened Aggregates

  datatype Summary = Summary(
    totalCalls: nat,
    callsCountByDate: seq<KeyCount>,
    callsCountByHour: seq<KeyCount>,
    callsCountByAgentsDepartments: seq<PairCount>,
    ratingInputs: seq<int>,
    speedInputs: seq<int>,
    talkDurationInputs: seq<int>)

  /** The value of every aggregate expression for one sidebar state. */
  function Summarize(data: seq<Record>, st: FilterState): (s: Summary)
    ensures s.totalCalls <= |data|
    ensures s.totalCalls == 0 <==> forall i :: 0 <= i < |data| ==> !Keep(st, data[i])
    ensures Total(s.callsCountByDate) == s.totalCalls
    ensures |s.ratingInputs| == s.totalCalls
    ensures TotalPairCalls(s.callsCountByAgentsDepartments) <= s.totalCalls
  {
    var view := Filtered(data, st);
    TotalCallsBounds(data, st);
    DateCountsAddUp(view);
    RatingInputsPerRow(view);
    CallRowsBound(view);
    Summary(
      TotalCalls(view),
      CallsCountByDate(view),
      CallsCountByHour(view),
      CallsCountByAgentsDepartments(view),
      MeanInputs(view, RatingColumn),
      MeanInputs(view, SpeedColumn),
      MeanInputs(view, TalkDurationColumn))
  }

  /** When no row passes, every aggregate expression evaluates to zero or to an empty table.
      (The script itself stops earlier in that case: see the README.) */
  lemma EmptyViewPropagates(data: seq<Record>, st: FilterState)
    requires forall i :: 0 <= i < |data| ==> !Keep(st, data[i])
    ensures Summarize(data, st) == Summary(0, [], [], [], [], [], [])
  {
    FilteredNone(data, st);
  }

  lemma {:induction false} PresentKeysAll(view: seq<Record>, c: KeyColumn)
    requires forall i :: 0 <= i < |view| ==> KeyOf(view[i], c).Some?
    ensures PresentKeys(view, c) == |view|
  {
    if view != [] {
      assert forall i :: 1 <= i < |view| ==> view[i] == view[1..][i - 1];
      PresentKeysAll(view[1..], c);
    }
  }

  /** On a view of kept rows, every row has a date, so the per-Date counts add up to its length. */
  lemma DateCountsAddUp(view: seq<Record>)
    requires forall i :: 0 <= i < |view| ==> view[i].date.Some?
    ensures Total(CallsCountByDate(view)) == TotalCalls(view)
  {
    PresentKeysAll(view, DateColumn);
  }

  /** Every kept row has a date, so the per-Date counts add up to the total number of calls. */
  lemma DateCountsAddUpToTotal(data: seq<Record>, st: FilterState)
    ensures Total(Summarize(data, st).callsCountByDate) == Summarize(data, st).totalCalls
  {
    DateCountsAddUp(Filtered(data, st));
  }

  lemma {:induction false} RatingInputsPerRow(view: seq<Record>)
    requires forall i :: 0 <= i < |view| ==> view[i].satisfactionRating.Some?
    ensures |MeanInputs(view, RatingColumn)| == |view|
  {
    if view != [] {
      assert forall i :: 1 <= i < |view| ==> view[i] == view[1..][i - 1];
      RatingInputsPerRow(view[1..]);
    }
  }

  lemma {:induction false} CallRowsBound(view: seq<Record>)
    ensures CallRows(view) <= |view|
  {
    if view != [] {
      CallRowsBound(view[..|view| - 1]);
    }
  }

  /** Every kept row has a rating, so the rating mean has an input exactly when the view is
      non-empty: `round(avgRating)` receives NaN only for an empty view. */
  lemma RatingMeanDefinedIffCalls(data: seq<Record>, st: FilterState)
    ensures Summarize(data, st).ratingInputs == [] <==> Filtered(data, st) == []
  {
  }

  /** Two calls: agent A in department X on day 19723 (2024-01-01) at 9h, rated 5;
      agent B in department Y on day 19724 at 10h, rated 3. */
  function SampleStore(): seq<Record> {
    [ Record(Some(1), "A", "X", "Yes", "Yes", Some(5), Some(10), Some(60), Some(19723), Some(9)),
      Record(Some(2), "B", "Y", "Yes", "No", Some(3), Some(20), Some(30), Some(19724), Some(10)) ]
  }

  /** Selecting only agent A keeps the first call: one call, its rating, its date. */
  lemma SampleAgentFilter()
    ensures var st := FilterState(["A"], ["X", "Y"], ["Yes"], ["Yes", "No"],
                                  Range(Some(3), Some(5)), Range(Some(19723), Some(19724)));
      && Filtered(SampleStore(), st) == [SampleStore()[0]]
      && Summarize(SampleStore(), st).totalCalls == 1
      && Summarize(SampleStore(), st).ratingInputs == [5]
      && Summarize(SampleStore(), st).callsCountByDate == [KeyCount(19723, 1)]
  {
    var st := FilterState(["A"], ["X", "Y"], ["Yes"], ["Yes", "No"],
                          Range(Some(3), Some(5)), Range(Some(19723), Some(19724)));
    var s := SampleStore();
    assert Keep(st, s[0]) && !Keep(st, s[1]);
    assert Filtered(s, st) == [s[0]];
  }

  /** The rating range [4, 5] excludes the call rated 3. */
  lemma SampleRatingFilter()
    ensures Filtered(SampleStore(), FilterState(["A", "B"], ["X", "Y"], ["Yes"], ["Yes", "No"],
                                                Range(Some(4), Some(5)), Range(Some(19723), Some(19724))))
            == [SampleStore()[0]]
  {
    var st := FilterState(["A", "B"], ["X", "Y"], ["Yes"], ["Yes", "No"],
                          Range(Some(4), Some(5)), Range(Some(19723), Some(19724)));
    var s := SampleStore();
    assert Keep(st, s[0]) && !Keep(st, s[1]);
  }

  /** Two calls of the same agent in the same department form one entry counting both. */
  lemma SampleSharedPair()
    ensures PairCounts([
      Record(Some(1), "A", "X", "Yes", "Yes", Some(5), Some(10), Some(60), Some(19723), Some(9)),
      Record(Some(3), "A", "X", "No", "No", None, None, None, Some(19724), Some(11))])
      == [PairCount("A", "X", 2)]
  {
    var v := [
      Record(Some(1), "A", "X", "Yes", "Yes", Some(5), Some(10), Some(60), Some(19723), Some(9)),
      Record(Some(3), "A", "X", "No", "No", None, None, None, Some(19724), Some(11))];
    assert v[..1] == [v[0]] && v[..1][..0] == [];
  }
}
