/** The sidebar's initial selections, derived from the loaded dataset: every distinct
    categorical value selected and each slider at the observed minimum and maximum. */
module Defaults {
  import opened Wrappers
  import opened Records
  import opened Sequences
  import opened Filter

  function Agents(data: seq<Record>): (col: seq<string>)
    ensures |col| == |data| && forall i :: 0 <= i < |data| ==> col[i] == data[i].agent
  {
    seq(|data|, i requires 0 <= i < |data| => data[i].agent)
  }

  function Departments(data: seq<Record>): (col: seq<string>)
    ensures |col| == |data| && forall i :: 0 <= i < |data| ==> col[i] == data[i].department
  {
    seq(|data|, i requires 0 <= i < |data| => data[i].department)
  }

  function AnsweredValues(data: seq<Record>): (col: seq<string>)
    ensures |col| == |data| && forall i :: 0 <= i < |data| ==> col[i] == data[i].answered
  {
    seq(|data|, i requires 0 <= i < |data| => data[i].answered)
  }

  function ResolvedValues(data: seq<Record>): (col: seq<string>)
    ensures |col| == |data| && forall i :: 0 <= i < |data| ==> col[i] == data[i].resolved
  {
    seq(|data|, i requires 0 <= i < |data| => data[i].resolved)
  }

  function Ratings(data: seq<Record>): (col: seq<Option<int>>)
    ensures |col| == |data| && forall i :: 0 <= i < |data| ==> col[i] == data[i].satisfactionRating
  {
    seq(|data|, i requires 0 <= i < |data| => data[i].satisfactionRating)
  }

  function Dates(data: seq<Record>): (col: seq<Option<int>>)
    ensures |col| == |data| && forall i :: 0 <= i < |data| ==> col[i] == data[i].date
  {
    seq(|data|, i requires 0 <= i < |data| => data[i].date)
  }

  /** pandas `Series.min()`: the least present value, skipping missing cells; missing if none is present. */
  function MinPresent(vs: seq<Option<int>>): (m: Option<int>)
    ensures m.None? <==> forall i :: 0 <= i < |vs| ==> vs[i].None?
    ensures m.Some? ==> m in vs
    ensures m.Some? ==> forall i :: 0 <= i < |vs| && vs[i].Some? ==> m.value <= vs[i].value
  {
    if vs == [] then None
    else
      var rest := MinPresent(vs[1..]);
      match vs[0]
      case None => rest
      case Some(v) => if rest.Some? && rest.value < v then rest else Some(v)
  }

  /** pandas `Series.max()`: the greatest present value, skipping missing cells; missing if none is present. */
  function MaxPresent(vs: seq<Option<int>>): (m: Option<int>)
    ensures m.None? <==> forall i :: 0 <= i < |vs| ==> vs[i].None?
    ensures m.Some? ==> m in vs
    ensures m.Some? ==> forall i :: 0 <= i < |vs| && vs[i].Some? ==> vs[i].value <= m.value
  {
    if vs == [] then None
    else
      var rest := MaxPresent(vs[1..]);
      match vs[0]
      case None => rest
      case Some(v) => if rest.Some? && rest.value > v then rest else Some(v)
  }

  /** The observed `[min, max]` of a column, as the slider's initial value. */
  function ObservedRange(vs: seq<Option<int>>): (r: Range)
    ensures forall i :: 0 <= i < |vs| && vs[i].Some? ==> InRange(vs[i], r)
    ensures r.low.Some? ==> r.low in vs
    ensures r.high.Some? ==> r.high in vs
  {
    Range(MinPresent(vs), MaxPresent(vs))
  }

  /** The initial sidebar state for a dataset. */
  function DefaultState(data: seq<Record>): (st: FilterState)
    ensures Distinct(st.agentFilter) && Distinct(st.departmentFilter)
    ensures Distinct(st.answeredFilter) && Distinct(st.resolvedFilter)
    ensures forall i :: 0 <= i < |st.agentFilter| ==> st.agentFilter[i] in Agents(data)
    ensures forall i :: 0 <= i < |st.departmentFilter| ==> st.departmentFilter[i] in Departments(data)
    ensures forall i :: 0 <= i < |st.answeredFilter| ==> st.answeredFilter[i] in AnsweredValues(data)
    ensures forall i :: 0 <= i < |st.resolvedFilter| ==> st.resolvedFilter[i] in ResolvedValues(data)
    ensures forall i :: 0 <= i < |data| ==>
      && data[i].agent in st.agentFilter && data[i].department in st.departmentFilter
      && data[i].answered in st.answeredFilter && data[i].resolved in st.resolvedFilter
    ensures forall i :: 0 <= i < |data| && data[i].satisfactionRating.Some? ==>
      InRange(data[i].satisfactionRating, st.ratingRange)
    ensures forall i :: 0 <= i < |data| && data[i].date.Some? ==> InRange(data[i].date, st.dateRange)
    ensures st.ratingRange.low.Some? ==> st.ratingRange.low in Ratings(data)
    ensures st.ratingRange.high.Some? ==> st.ratingRange.high in Ratings(data)
    ensures st.dateRange.low.Some? ==> st.dateRange.low in Dates(data)
    ensures st.dateRange.high.Some? ==> st.dateRange.high in Dates(data)
  {
    FilterState(
      Unique(Agents(data)),
      Unique(Departments(data)),
      Unique(AnsweredValues(data)),
      Unique(ResolvedValues(data)),
      ObservedRange(Ratings(data)),
      ObservedRange(Dates(data)))
  }

  /** A row with a present rating and date. */
  predicate Complete(r: Record) {
    r.satisfactionRating.Some? && r.date.Some?
  }

  /** Under the default state, every complete row of the dataset passes the query. */
  lemma DefaultKeepsComplete(data: seq<Record>, i: nat)
    requires i < |data| && Complete(data[i])
    ensures Keep(DefaultState(data), data[i])
  {
  }

  /** Under the default state the view holds exactly the rows with a present rating and date. */
  lemma {:induction false} DefaultViewIsCompleteRows(data: seq<Record>)
    ensures forall r :: r in Filtered(data, DefaultState(data)) <==> r in data && Complete(r)
  {
    forall r
      ensures r in Filtered(data, DefaultState(data)) <==> r in data && Complete(r)
    {
      KeptIff(data, DefaultState(data), r);
      if r in data && Complete(r) {
        var i :| 0 <= i < |data| && data[i] == r;
        DefaultKeepsComplete(data, i);
      }
    }
  }

  /** Identity filter law: when no row lacks a rating or date, the default view is the whole dataset. */
  lemma DefaultIsIdentity(data: seq<Record>)
    requires forall i :: 0 <= i < |data| ==> Complete(data[i])
    ensures Filtered(data, DefaultState(data)) == data
  {
    forall i | 0 <= i < |data|
      ensures Keep(DefaultState(data), data[i])
    {
      DefaultKeepsComplete(data, i);
    }
    FilteredAll(data, DefaultState(data));
  }
}
