/** The loaded call-center dataset and the dashboard's filter state. */
module Records {
  import opened Wrappers

  /** One spreadsheet row. Numeric cells that may be empty are Options (pandas NaN);
      Date is a day number, so integer order is calendar order. */
  datatype Record = Record(
    callId: Option<int>,
    agent: string,
    department: string,
    answered: string,
    resolved: string,
    satisfactionRating: Option<int>,
    speedOfAnswer: Option<int>,
    avgTalkDuration: Option<int>,
    date: Option<int>,
    hour: Option<int>)

  /** An inclusive slider range. A missing bound behaves as NaN: every comparison with it is false. */
  datatype Range = Range(low: Option<int>, high: Option<int>)

  /** The sidebar selections: four multiselect lists and two range sliders. */
  datatype FilterState = FilterState(
    agentFilter: seq<string>,
    departmentFilter: seq<string>,
    answeredFilter: seq<string>,
    resolvedFilter: seq<string>,
    ratingRange: Range,
    dateRange: Range)
}
