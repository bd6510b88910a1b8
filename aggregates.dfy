/** The counting aggregates over the filtered view: the total, counts per Date and per Hour,
    counts per (Agent, Department) pair, and the values that feed each mean. */
module Aggregates {
  import opened Wrappers
  import opened Records
  import opened Sequences
  import opened Filter

  // ---------- total count ----------

  /** `shape[0]`: the number of rows in the view. */
  function TotalCalls(view: seq<Record>): nat {
    |view|
  }

  lemma {:induction false} TotalCallsBounds(data: seq<Record>, st: FilterState)
    ensures TotalCalls(Filtered(data, st)) <= |data|
    ensures TotalCalls(Filtered(data, st)) == |data| <==> forall i :: 0 <= i < |data| ==> Keep(st, data[i])
    ensures TotalCalls(Filtered(data, st)) == 0 <==> forall i :: 0 <= i < |data| ==> !Keep(st, data[i])
  {
    if data != [] {
      TotalCallsBounds(data[1..], st);
      assert forall i :: 1 <= i < |data| ==> data[i] == data[1..][i - 1];
    }
  }

  // ---------- counts per Date and per Hour ----------

  datatype KeyColumn = DateColumn | HourColumn

  function KeyOf(r: Record, c: KeyColumn): Option<int> {
    match c
    case DateColumn => r.date
    case HourColumn => r.hour
  }

  /** One row of `groupby(key)[key].count()`. */
  datatype KeyCount = KeyCount(key: int, count: nat)

  function Keys(g: seq<KeyCount>): (ks: seq<int>)
    ensures |ks| == |g| && forall i :: 0 <= i < |g| ==> ks[i] == g[i].key
  {
    seq(|g|, i requires 0 <= i < |g| => g[i].key)
  }

  /** Keys strictly increase: each key occurs once and the table is in key order. */
  predicate StrictlySorted(g: seq<KeyCount>) {
    forall i, j :: 0 <= i < j < |g| ==> g[i].key < g[j].key
  }

  predicate Positive(g: seq<KeyCount>) {
    forall i :: 0 <= i < |g| ==> g[i].count >= 1
  }

  /** The count recorded for `k`, or 0 when the table has no entry for it. */
  function Lookup(g: seq<KeyCount>, k: int): nat {
    if g == [] then 0 else if g[0].key == k then g[0].count else Lookup(g[1..], k)
  }

  function Total(g: seq<KeyCount>): nat {
    if g == [] then 0 else g[0].count + Total(g[1..])
  }

  /** Number of rows of the view whose key column holds `k`. */
  function CountKey(view: seq<Record>, c: KeyColumn, k: int): nat {
    if view == [] then 0 else (if KeyOf(view[0], c) == Some(k) then 1 else 0) + CountKey(view[1..], c, k)
  }

  /** Number of rows of the view whose key column is present. */
  function PresentKeys(view: seq<Record>, c: KeyColumn): nat {
    if view == [] then 0 else (if KeyOf(view[0], c).Some? then 1 else 0) + PresentKeys(view[1..], c)
  }

  lemma SortedCons(x: KeyCount, t: seq<KeyCount>)
    requires StrictlySorted(t) && forall i :: 0 <= i < |t| ==> x.key < t[i].key
    ensures StrictlySorted([x] + t)
  {
    var r := [x] + t;
    forall i, j | 0 <= i < j < |r|
      ensures r[i].key < r[j].key
    {
      assert r[j] == t[j - 1];
      if i > 0 {
        assert r[i] == t[i - 1];
      }
    }
  }

  /** Adds one row with key `k` to a sorted table. */
  function Insert(g: seq<KeyCount>, k: int): (r: seq<KeyCount>)
    requires StrictlySorted(g)
    ensures StrictlySorted(r)
    ensures forall i :: 0 <= i < |r| ==> r[i].key == k || (g != [] && g[0].key <= r[i].key)
  {
    if g == [] then [KeyCount(k, 1)]
    else if g[0].key == k then
      SortedCons(KeyCount(k, g[0].count + 1), g[1..]);
      [KeyCount(k, g[0].count + 1)] + g[1..]
    else if k < g[0].key then
      SortedCons(KeyCount(k, 1), g);
      [KeyCount(k, 1)] + g
    else
      var tail := Insert(g[1..], k);
      assert forall i :: 0 <= i < |tail| ==> g[0].key < tail[i].key;
      SortedCons(g[0], tail);
      [g[0]] + tail
  }

  /** Inserting introduces no key other than the new one. */
  lemma {:induction false} InsertKeys(g: seq<KeyCount>, k: int)
    requires StrictlySorted(g)
    ensures forall i :: 0 <= i < |Insert(g, k)| ==> Insert(g, k)[i].key == k || Insert(g, k)[i].key in Keys(g)
  {
    if g != [] && g[0].key != k && g[0].key < k {
      InsertKeys(g[1..], k);
      assert Keys(g[1..]) == Keys(g)[1..];
      var r := Insert(g, k);
      assert r[0].key == Keys(g)[0];
      assert forall i :: 0 < i < |r| ==> r[i] == Insert(g[1..], k)[i - 1];
    } else if g != [] && g[0].key == k {
      assert Keys(g[1..]) == Keys(g)[1..];
      assert forall i :: 0 < i < |Insert(g, k)| ==> Insert(g, k)[i] == g[i];
    } else if g != [] {
      assert forall i :: 0 < i < |Insert(g, k)| ==> Insert(g, k)[i] == g[i - 1];
    }
  }

  /** Inserting keeps every count at least 1. */
  lemma {:induction false} InsertPositive(g: seq<KeyCount>, k: int)
    requires StrictlySorted(g) && Positive(g)
    ensures Positive(Insert(g, k))
  {
    if g != [] && g[0].key != k && g[0].key < k {
      InsertPositive(g[1..], k);
    }
  }

  lemma {:induction false} LookupAbsent(g: seq<KeyCount>, k: int)
    requires k !in Keys(g)
    ensures Lookup(g, k) == 0
  {
    if g != [] {
      assert Keys(g[1..]) == Keys(g)[1..];
      LookupAbsent(g[1..], k);
    }
  }

  lemma {:induction false} InsertLookup(g: seq<KeyCount>, k: int, j: int)
    requires StrictlySorted(g)
    ensures Lookup(Insert(g, k), j) == Lookup(g, j) + (if j == k then 1 else 0)
  {
    if g != [] && g[0].key != k && g[0].key < k {
      InsertLookup(g[1..], k, j);
    } else if g != [] && k < g[0].key && j == k {
      assert k !in Keys(g);
      LookupAbsent(g, k);
    }
  }

  lemma {:induction false} InsertTotal(g: seq<KeyCount>, k: int)
    requires StrictlySorted(g)
    ensures Total(Insert(g, k)) == Total(g) + 1
  {
    if g != [] && g[0].key != k && g[0].key < k {
      InsertTotal(g[1..], k);
    } else if g != [] && g[0].key == k {
      assert Insert(g, k)[1..] == g[1..];
    }
  }

  /** `groupby(key)[key].count()` for the Date or Hour column: rows with a missing key form no group. */
  function GroupCount(view: seq<Record>, c: KeyColumn): (g: seq<KeyCount>)
    ensures StrictlySorted(g) && Positive(g)
  {
    if view == [] then []
    else
      match KeyOf(view[0], c)
      case None => GroupCount(view[1..], c)
      case Some(k) =>
        InsertPositive(GroupCount(view[1..], c), k);
        Insert(GroupCount(view[1..], c), k)
  }

  /** `callsCountByDate`: calls per Date of the view, sorted by Date. */
  function CallsCountByDate(view: seq<Record>): (g: seq<KeyCount>)
    ensures StrictlySorted(g) && Positive(g)
    ensures forall k :: Lookup(g, k) == CountKey(view, DateColumn, k)
    ensures Total(g) == PresentKeys(view, DateColumn)
  {
    GroupCountSpec(view, DateColumn);
    GroupCount(view, DateColumn)
  }

  /** `callsCountByHour`: calls per Hour of the view, sorted by Hour. */
  function CallsCountByHour(view: seq<Record>): (g: seq<KeyCount>)
    ensures StrictlySorted(g) && Positive(g)
    ensures forall k :: Lookup(g, k) == CountKey(view, HourColumn, k)
    ensures Total(g) == PresentKeys(view, HourColumn)
  {
    GroupCountSpec(view, HourColumn);
    GroupCount(view, HourColumn)
  }

  /** The table's count for any key is the number of rows holding that key. */
  lemma {:induction false} GroupCountLookup(view: seq<Record>, c: KeyColumn, k: int)
    ensures Lookup(GroupCount(view, c), k) == CountKey(view, c, k)
  {
    if view != [] {
      GroupCountLookup(view[1..], c, k);
      if KeyOf(view[0], c).Some? {
        InsertLookup(GroupCount(view[1..], c), KeyOf(view[0], c).value, k);
      }
    }
  }

  lemma {:induction false} LookupAt(g: seq<KeyCount>, i: nat)
    requires StrictlySorted(g) && i < |g|
    ensures Lookup(g, g[i].key) == g[i].count
  {
    if i > 0 {
      LookupAt(g[1..], i - 1);
    }
  }

  lemma {:induction false} LookupPresent(g: seq<KeyCount>, k: int)
    requires Positive(g) && k in Keys(g)
    ensures Lookup(g, k) >= 1
  {
    if g[0].key != k {
      assert Keys(g[1..]) == Keys(g)[1..];
      LookupPresent(g[1..], k);
    }
  }

  lemma {:induction false} CountKeyPositive(view: seq<Record>, c: KeyColumn, k: int)
    ensures CountKey(view, c, k) >= 1 <==> exists i :: 0 <= i < |view| && KeyOf(view[i], c) == Some(k)
  {
    if view != [] {
      CountKeyPositive(view[1..], c, k);
      assert forall i :: 1 <= i < |view| ==> view[i] == view[1..][i - 1];
      if CountKey(view[1..], c, k) >= 1 {
        var i :| 0 <= i < |view[1..]| && KeyOf(view[1..][i], c) == Some(k);
        assert KeyOf(view[i + 1], c) == Some(k);
      }
    }
  }

  /** Each entry's count is the number of rows with that key (and is at least 1). */
  lemma GroupCountEntry(view: seq<Record>, c: KeyColumn, i: nat)
    requires i < |GroupCount(view, c)|
    ensures GroupCount(view, c)[i].count == CountKey(view, c, GroupCount(view, c)[i].key) >= 1
  {
    LookupAt(GroupCount(view, c), i);
    GroupCountLookup(view, c, GroupCount(view, c)[i].key);
  }

  /** The keys are exactly the key values present in the view: no more, no fewer. */
  lemma GroupCountKeys(view: seq<Record>, c: KeyColumn, k: int)
    ensures k in Keys(GroupCount(view, c)) <==> exists i :: 0 <= i < |view| && KeyOf(view[i], c) == Some(k)
  {
    var g := GroupCount(view, c);
    GroupCountLookup(view, c, k);
    CountKeyPositive(view, c, k);
    if k in Keys(g) {
      LookupPresent(g, k);
    } else {
      LookupAbsent(g, k);
    }
  }

  lemma GroupCountSpec(view: seq<Record>, c: KeyColumn)
    ensures forall k :: Lookup(GroupCount(view, c), k) == CountKey(view, c, k)
    ensures Total(GroupCount(view, c)) == PresentKeys(view, c)
  {
    forall k
      ensures Lookup(GroupCount(view, c), k) == CountKey(view, c, k)
    {
      GroupCountLookup(view, c, k);
    }
    GroupCountTotal(view, c);
  }

  /** The counts sum to the number of rows whose key is present. */
  lemma {:induction false} GroupCountTotal(view: seq<Record>, c: KeyColumn)
    ensures Total(GroupCount(view, c)) == PresentKeys(view, c)
  {
    if view != [] {
      GroupCountTotal(view[1..], c);
      if KeyOf(view[0], c).Some? {
        InsertTotal(GroupCount(view[1..], c), KeyOf(view[0], c).value);
      }
    }
  }

  // ---------- counts per (Agent, Department) ----------

  /** One row of `groupby(['Agent', 'Department'])['CallId'].count().reset_index()`. */
  datatype PairCount = PairCount(agent: string, department: string, calls: nat)

  function Pairs(p: seq<PairCount>): (ps: seq<(string, string)>)
    ensures |ps| == |p| && forall i :: 0 <= i < |p| ==> ps[i] == (p[i].agent, p[i].department)
  {
    seq(|p|, i requires 0 <= i < |p| => (p[i].agent, p[i].department))
  }

  /** The calls recorded for the pair, or 0 when the table has no entry for it. */
  function PairCalls(p: seq<PairCount>, a: string, d: string): nat {
    if p == [] then 0
    else if p[0].agent == a && p[0].department == d then p[0].calls
    else PairCalls(p[1..], a, d)
  }

  function TotalPairCalls(p: seq<PairCount>): nat {
    if p == [] then 0 else p[0].calls + TotalPairCalls(p[1..])
  }

  /** Number of rows of the view with this Agent and Department and a present CallId. */
  function CallsFor(view: seq<Record>, a: string, d: string): nat {
    if view == [] then 0
    else
      var r := view[|view| - 1];
      CallsFor(view[..|view| - 1], a, d)
        + (if r.agent == a && r.department == d && r.callId.Some? then 1 else 0)
  }

  /** Number of rows of the view with a present CallId. */
  function CallRows(view: seq<Record>): nat {
    if view == [] then 0
    else CallRows(view[..|view| - 1]) + (if view[|view| - 1].callId.Some? then 1 else 0)
  }

  /** Adds `inc` calls to the entry for (a, d), or appends a new entry for a pair not yet seen. */
  function Bump(p: seq<PairCount>, a: string, d: string, inc: nat): (r: seq<PairCount>)
    ensures forall x :: x in Pairs(r) <==> x in Pairs(p) || x == (a, d)
  {
    if p == [] then
      assert Pairs([PairCount(a, d, inc)]) == [(a, d)];
      [PairCount(a, d, inc)]
    else if p[0].agent == a && p[0].department == d then
      var r := [p[0].(calls := p[0].calls + inc)] + p[1..];
      assert Pairs(r) == Pairs(p);
      r
    else
      var tail := Bump(p[1..], a, d, inc);
      var r := [p[0]] + tail;
      assert Pairs(r) == [Pairs(p)[0]] + Pairs(tail);
      assert Pairs(p) == [Pairs(p)[0]] + Pairs(p[1..]);
      r
  }

  lemma {:induction false} BumpDistinct(p: seq<PairCount>, a: string, d: string, inc: nat)
    requires Distinct(Pairs(p))
    ensures Distinct(Pairs(Bump(p, a, d, inc)))
  {
    if p != [] {
      var r := Bump(p, a, d, inc);
      if p[0].agent == a && p[0].department == d {
        assert Pairs(r) == Pairs(p);
      } else {
        var tail := Bump(p[1..], a, d, inc);
        assert Pairs(r) == [Pairs(p)[0]] + Pairs(tail);
        assert Pairs(p) == [Pairs(p)[0]] + Pairs(p[1..]);
        DistinctCons(Pairs(p)[0], Pairs(p[1..]));
        BumpDistinct(p[1..], a, d, inc);
        DistinctCons(Pairs(p)[0], Pairs(tail));
      }
    } else {
      assert Pairs(Bump(p, a, d, inc)) == [(a, d)];
    }
  }

  lemma {:induction false} BumpCalls(p: seq<PairCount>, a: string, d: string, inc: nat, a': string, d': string)
    ensures PairCalls(Bump(p, a, d, inc), a', d') ==
      PairCalls(p, a', d') + (if (a', d') == (a, d) then inc else 0)
  {
    if p != [] && !(p[0].agent == a && p[0].department == d) {
      BumpCalls(p[1..], a, d, inc, a', d');
    }
  }

  lemma {:induction false} BumpTotal(p: seq<PairCount>, a: string, d: string, inc: nat)
    ensures TotalPairCalls(Bump(p, a, d, inc)) == TotalPairCalls(p) + inc
  {
    if p != [] {
      if p[0].agent == a && p[0].department == d {
        assert Bump(p, a, d, inc)[1..] == p[1..];
      } else {
        BumpTotal(p[1..], a, d, inc);
      }
    }
  }

  /** `groupby(['Agent', 'Department'])['CallId'].count()`: one entry per pair observed in the view,
      counting the rows whose CallId is present; entries appear in order of first occurrence. */
  function PairCounts(view: seq<Record>): (p: seq<PairCount>)
    ensures Distinct(Pairs(p))
  {
    if view == [] then []
    else
      var r := view[|view| - 1];
      var prefix := PairCounts(view[..|view| - 1]);
      BumpDistinct(prefix, r.agent, r.department, if r.callId.Some? then 1 else 0);
      Bump(prefix, r.agent, r.department, if r.callId.Some? then 1 else 0)
  }

  /** `callsCountByAgentsDepartments`: calls with a CallId per observed (Agent, Department) pair. */
  function CallsCountByAgentsDepartments(view: seq<Record>): (p: seq<PairCount>)
    ensures Distinct(Pairs(p))
    ensures forall a, d :: PairCalls(p, a, d) == CallsFor(view, a, d)
    ensures TotalPairCalls(p) == CallRows(view)
  {
    PairCountsSpec(view);
    PairCounts(view)
  }

  lemma PairCountsSpec(view: seq<Record>)
    ensures forall a, d :: PairCalls(PairCounts(view), a, d) == CallsFor(view, a, d)
    ensures TotalPairCalls(PairCounts(view)) == CallRows(view)
  {
    forall a, d
      ensures PairCalls(PairCounts(view), a, d) == CallsFor(view, a, d)
    {
      PairCountsCalls(view, a, d);
    }
    PairCountsTotal(view);
  }

  /** The table's entry for any pair counts the rows of that pair with a present CallId. */
  lemma {:induction false} PairCountsCalls(view: seq<Record>, a: string, d: string)
    ensures PairCalls(PairCounts(view), a, d) == CallsFor(view, a, d)
  {
    if view != [] {
      var r := view[|view| - 1];
      PairCountsCalls(view[..|view| - 1], a, d);
      BumpCalls(PairCounts(view[..|view| - 1]), r.agent, r.department, if r.callId.Some? then 1 else 0, a, d);
    }
  }

  /** The entries are exactly the (Agent, Department) pairs that occur in the view. */
  lemma {:induction false} PairCountsPairs(view: seq<Record>, a: string, d: string)
    ensures (a, d) in Pairs(PairCounts(view)) <==>
      exists i :: 0 <= i < |view| && view[i].agent == a && view[i].department == d
  {
    if view != [] {
      var init := view[..|view| - 1];
      PairCountsPairs(init, a, d);
      assert forall i :: 0 <= i < |init| ==> init[i] == view[i];
      if (exists i :: 0 <= i < |view| && view[i].agent == a && view[i].department == d)
         && !(view[|view| - 1].agent == a && view[|view| - 1].department == d) {
        var i :| 0 <= i < |view| && view[i].agent == a && view[i].department == d;
        assert init[i] == view[i];
      }
    }
  }

  lemma {:induction false} PairCallsAt(p: seq<PairCount>, i: nat)
    requires Distinct(Pairs(p)) && i < |p|
    ensures PairCalls(p, p[i].agent, p[i].department) == p[i].calls
  {
    if i > 0 {
      assert Pairs(p[1..]) == Pairs(p)[1..];
      assert Pairs(p)[0] != Pairs(p)[i];
      PairCallsAt(p[1..], i - 1);
    }
  }

  /** Each entry's count is the number of rows of its pair with a present CallId. */
  lemma PairCountsEntry(view: seq<Record>, i: nat)
    requires i < |PairCounts(view)|
    ensures PairCounts(view)[i].calls == CallsFor(view, PairCounts(view)[i].agent, PairCounts(view)[i].department)
  {
    var p := PairCounts(view);
    PairCallsAt(p, i);
    PairCountsCalls(view, p[i].agent, p[i].department);
  }

  lemma {:induction false} CallsForPositive(view: seq<Record>, a: string, d: string)
    requires forall i :: 0 <= i < |view| ==> view[i].callId.Some?
    ensures CallsFor(view, a, d) >= 1 <==>
      exists i :: 0 <= i < |view| && view[i].agent == a && view[i].department == d
  {
    if view != [] {
      var init := view[..|view| - 1];
      assert forall i :: 0 <= i < |init| ==> init[i] == view[i];
      CallsForPositive(init, a, d);
      if (exists i :: 0 <= i < |view| && view[i].agent == a && view[i].department == d)
         && !(view[|view| - 1].agent == a && view[|view| - 1].department == d) {
        var i :| 0 <= i < |view| && view[i].agent == a && view[i].department == d;
        assert init[i] == view[i];
      }
    }
  }

  /** When every row has a CallId, no pair is listed with a zero count. */
  lemma NoZeroPairs(view: seq<Record>, i: nat)
    requires forall j :: 0 <= j < |view| ==> view[j].callId.Some?
    requires i < |PairCounts(view)|
    ensures PairCounts(view)[i].calls >= 1
  {
    var p := PairCounts(view);
    PairCountsEntry(view, i);
    PairCountsPairs(view, p[i].agent, p[i].department);
    CallsForPositive(view, p[i].agent, p[i].department);
  }

  /** The pair counts sum to the number of rows with a present CallId. */
  lemma {:induction false} PairCountsTotal(view: seq<Record>)
    ensures TotalPairCalls(PairCounts(view)) == CallRows(view)
  {
    if view != [] {
      var r := view[|view| - 1];
      PairCountsTotal(view[..|view| - 1]);
      BumpTotal(PairCounts(view[..|view| - 1]), r.agent, r.department, if r.callId.Some? then 1 else 0);
    }
  }

  // ---------- inputs of the means ----------

  datatype NumericColumn = RatingColumn | SpeedColumn | TalkDurationColumn

  function ValueOf(r: Record, c: NumericColumn): Option<int> {
    match c
    case RatingColumn => r.satisfactionRating
    case SpeedColumn => r.speedOfAnswer
    case TalkDurationColumn => r.avgTalkDuration
  }

  /** Number of rows of the view whose value in `c` is present. */
  function PresentValues(view: seq<Record>, c: NumericColumn): nat {
    if view == [] then 0 else (if ValueOf(view[0], c).Some? then 1 else 0) + PresentValues(view[1..], c)
  }

  /** Number of rows of the view whose value in `c` is `v`. */
  function CountValue(view: seq<Record>, c: NumericColumn, v: int): nat {
    if view == [] then 0 else (if ValueOf(view[0], c) == Some(v) then 1 else 0) + CountValue(view[1..], c, v)
  }

  /** The present values of a numeric column, in row order: what `Series.mean()` averages. */
  function MeanInputs(view: seq<Record>, c: NumericColumn): (vs: seq<int>)
    ensures |vs| <= |view|
  {
    if view == [] then []
    else
      match ValueOf(view[0], c)
      case None => MeanInputs(view[1..], c)
      case Some(v) => [v] + MeanInputs(view[1..], c)
  }

  /** A value feeds the mean exactly when some row of the view holds it. */
  lemma {:induction false} MeanInputsMembers(view: seq<Record>, c: NumericColumn, v: int)
    ensures v in MeanInputs(view, c) <==> exists i :: 0 <= i < |view| && ValueOf(view[i], c) == Some(v)
  {
    if view != [] {
      MeanInputsMembers(view[1..], c, v);
      assert forall i :: 1 <= i < |view| ==> view[i] == view[1..][i - 1];
      if exists i :: 0 <= i < |view| && ValueOf(view[i], c) == Some(v) {
        var i :| 0 <= i < |view| && ValueOf(view[i], c) == Some(v);
        if i > 0 {
          assert ValueOf(view[1..][i - 1], c) == Some(v);
        }
      }
    }
  }

  /** The mean has no inputs (and is undefined) exactly when every value in the view is missing. */
  lemma {:induction false} MeanInputsEmpty(view: seq<Record>, c: NumericColumn)
    ensures MeanInputs(view, c) == [] <==> forall i :: 0 <= i < |view| ==> ValueOf(view[i], c).None?
  {
    if view != [] {
      MeanInputsEmpty(view[1..], c);
      assert forall i :: 1 <= i < |view| ==> view[i] == view[1..][i - 1];
    }
  }

  /** A mean has one input per present cell: its divisor is the number of present values. */
  lemma {:induction false} MeanInputsCount(view: seq<Record>, c: NumericColumn)
    ensures |MeanInputs(view, c)| == PresentValues(view, c)
  {
    if view != [] {
      MeanInputsCount(view[1..], c);
    }
  }

  /** Each value feeds the mean as often as it occurs in the view's column. */
  lemma {:induction false} MeanInputsMultiplicity(view: seq<Record>, c: NumericColumn, v: int)
    ensures multiset(MeanInputs(view, c))[v] == CountValue(view, c, v)
  {
    if view != [] {
      MeanInputsMultiplicity(view[1..], c, v);
      match ValueOf(view[0], c)
      case None =>
      case Some(w) =>
        assert MeanInputs(view, c) == [w] + MeanInputs(view[1..], c);
        assert multiset(MeanInputs(view, c)) == multiset([w]) + multiset(MeanInputs(view[1..], c));
    }
  }
}
