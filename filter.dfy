/** The combined query over the dataset: the row predicate and the filtered view. */
module Filter {
  import opened Wrappers
  import opened Records
  import opened Sequences

  /** `low <= v <= high`, where a missing value or bound makes the comparison false. */
  predicate InRange(v: Option<int>, r: Range) {
    v.Some? && r.low.Some? && r.high.Some? && r.low.value <= v.value <= r.high.value
  }

  /** The query string: `==` against a list is membership, and every clause is ANDed.
      A row it keeps always has a rating and a date. */
  predicate Keep(st: FilterState, r: Record)
    ensures Keep(st, r) ==> r.satisfactionRating.Some? && r.date.Some?
    ensures Keep(st, r) ==> r.agent in st.agentFilter && r.department in st.departmentFilter
  {
    && r.agent in st.agentFilter
    && r.department in st.departmentFilter
    && r.answered in st.answeredFilter
    && r.resolved in st.resolvedFilter
    && InRange(r.satisfactionRating, st.ratingRange)
    && InRange(r.date, st.dateRange)
  }

  /** The rows of `data` that pass `Keep`, in their original order. */
  function Filtered(data: seq<Record>, st: FilterState): (view: seq<Record>)
    ensures |view| <= |data|
    ensures forall i :: 0 <= i < |view| ==> Keep(st, view[i]) && view[i] in data
  {
    if data == [] then []
    else (if Keep(st, data[0]) then [data[0]] else []) + Filtered(data[1..], st)
  }

  lemma {:induction false} FilteredConcat(a: seq<Record>, b: seq<Record>, st: FilterState)
    ensures Filtered(a + b, st) == Filtered(a, st) + Filtered(b, st)
  {
    if a == [] {
      assert a + b == b;
    } else {
      assert (a + b)[0] == a[0];
      assert (a + b)[1..] == a[1..] + b;
      FilteredConcat(a[1..], b, st);
    }
  }

  /** A row is in the view exactly when it is in the data and meets every clause of the query. */
  lemma {:induction false} KeptIff(data: seq<Record>, st: FilterState, r: Record)
    ensures r in Filtered(data, st) <==>
      && r in data
      && r.agent in st.agentFilter
      && r.department in st.departmentFilter
      && r.answered in st.answeredFilter
      && r.resolved in st.resolvedFilter
      && r.satisfactionRating.Some? && st.ratingRange.low.Some? && st.ratingRange.high.Some?
      && st.ratingRange.low.value <= r.satisfactionRating.value <= st.ratingRange.high.value
      && r.date.Some? && st.dateRange.low.Some? && st.dateRange.high.Some?
      && st.dateRange.low.value <= r.date.value <= st.dateRange.high.value
  {
    if data != [] {
      KeptIff(data[1..], st, r);
      assert data == [data[0]] + data[1..];
    }
  }

  /** The view is a subsequence of the data: order preserved, rows unchanged. */
  lemma {:induction false} FilteredIsSubsequence(data: seq<Record>, st: FilterState)
    ensures IsSubsequence(Filtered(data, st), data)
  {
    if data != [] {
      FilteredIsSubsequence(data[1..], st);
      var view := Filtered(data, st);
      if Keep(st, data[0]) {
        assert view[0] == data[0] && view[1..] == Filtered(data[1..], st);
      } else {
        assert view == Filtered(data[1..], st);
      }
    }
  }

  /** Every kept row occurs in the view as often as in the data; a rejected row not at all. */
  lemma {:induction false} FilteredMultiplicity(data: seq<Record>, st: FilterState, r: Record)
    ensures multiset(Filtered(data, st))[r] == if Keep(st, r) then multiset(data)[r] else 0
  {
    if data != [] {
      var head := if Keep(st, data[0]) then [data[0]] else [];
      FilteredMultiplicity(data[1..], st, r);
      assert data == [data[0]] + data[1..];
      assert Filtered(data, st) == head + Filtered(data[1..], st);
      assert multiset(Filtered(data, st)) == multiset(head) + multiset(Filtered(data[1..], st));
      assert multiset(data) == multiset([data[0]]) + multiset(data[1..]);
    }
  }

  /** When every row passes, the filter is the identity. */
  lemma {:induction false} FilteredAll(data: seq<Record>, st: FilterState)
    requires forall i :: 0 <= i < |data| ==> Keep(st, data[i])
    ensures Filtered(data, st) == data
  {
    if data != [] {
      FilteredAll(data[1..], st);
    }
  }

  /** When no row passes, the view is empty. */
  lemma {:induction false} FilteredNone(data: seq<Record>, st: FilterState)
    requires forall i :: 0 <= i < |data| ==> !Keep(st, data[i])
    ensures Filtered(data, st) == []
  {
    if data != [] {
      FilteredNone(data[1..], st);
    }
  }

  /** A range no value can satisfy: `low > high`, or a bound is missing. */
  predicate EmptyRange(r: Range) {
    !(r.low.Some? && r.high.Some? && r.low.value <= r.high.value)
  }

  /** Deselecting every value of a categorical filter, or an inverted range, empties the view. */
  lemma EmptySelection(data: seq<Record>, st: FilterState)
    requires || st.agentFilter == [] || st.departmentFilter == []
             || st.answeredFilter == [] || st.resolvedFilter == []
             || EmptyRange(st.ratingRange) || EmptyRange(st.dateRange)
    ensures Filtered(data, st) == []
  {
    FilteredNone(data, st);
  }

  /** The comparison against a missing rating or date fails, so such a row is never kept. */
  lemma MissingRatingOrDateNeverKept(data: seq<Record>, st: FilterState, r: Record)
    requires r.satisfactionRating.None? || r.date.None?
    ensures r !in Filtered(data, st)
  {
    KeptIff(data, st, r);
  }

  /** Every value `inner` admits is admitted by `outer`. */
  predicate Within(inner: Range, outer: Range) {
    || EmptyRange(inner)
    || (&& inner.low.Some? && inner.high.Some? && outer.low.Some? && outer.high.Some?
        && outer.low.value <= inner.low.value && inner.high.value <= outer.high.value)
  }

  /** `narrow` selects a subset of every list of `wide` and tightens both ranges. */
  predicate Narrower(narrow: FilterState, wide: FilterState) {
    && (forall x :: x in narrow.agentFilter ==> x in wide.agentFilter)
    && (forall x :: x in narrow.departmentFilter ==> x in wide.departmentFilter)
    && (forall x :: x in narrow.answeredFilter ==> x in wide.answeredFilter)
    && (forall x :: x in narrow.resolvedFilter ==> x in wide.resolvedFilter)
    && Within(narrow.ratingRange, wide.ratingRange)
    && Within(narrow.dateRange, wide.dateRange)
  }

  lemma NarrowerKeep(narrow: FilterState, wide: FilterState, r: Record)
    requires Narrower(narrow, wide) && Keep(narrow, r)
    ensures Keep(wide, r)
  {
  }

  /** Narrowing a filter refilters the wider view: it never adds rows and keeps their order. */
  lemma {:induction false} NarrowingRefilters(data: seq<Record>, narrow: FilterState, wide: FilterState)
    requires Narrower(narrow, wide)
    ensures Filtered(data, narrow) == Filtered(Filtered(data, wide), narrow)
    ensures IsSubsequence(Filtered(data, narrow), Filtered(data, wide))
  {
    if data != [] {
      var rest := data[1..];
      NarrowingRefilters(rest, narrow, wide);
      var w0 := if Keep(wide, data[0]) then [data[0]] else [];
      assert Filtered(data, wide) == w0 + Filtered(rest, wide);
      FilteredConcat(w0, Filtered(rest, wide), narrow);
      if Keep(narrow, data[0]) {
        NarrowerKeep(narrow, wide, data[0]);
        assert Filtered(w0, narrow) == [data[0]];
      } else {
        assert Filtered(w0, narrow) == [];
      }
    }
    FilteredIsSubsequence(Filtered(data, wide), narrow);
  }

  /** Applying the same filter twice gives the same view as applying it once. */
  lemma FilterIdempotent(data: seq<Record>, st: FilterState)
    ensures Filtered(Filtered(data, st), st) == Filtered(data, st)
  {
    NarrowingRefilters(data, st, st);
  }
}
