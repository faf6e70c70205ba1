/**
 * The earlier, framework-free dashboard: module-level state (the stat-card filter, the sort
 * column and direction, the report-type filter, the selected record), a second statistics
 * design with bucket aliases, the filter behind the table, the in-place table sort, and the
 * two modal handlers that mutate the selected record.
 */
module Legacy {
  import opened Optional
  import opened Strings
  import opened Seqs
  import opened ArraySort
  import T = Table

  /** One entry of a record's comment list. */
  datatype LegacyComment = LegacyComment(id: int, kind: string, text: string, timestamp: string)

  /** The contents of one record at some moment. */
  datatype LegacySubmission = LegacySubmission(
    id: string,
    operator: string,
    category: string,
    reportType: string,
    dueDate: string,
    receivedDate: Option<string>,
    status: string,
    comments: seq<LegacyComment>)

  /** A record of the store; the status handler assigns `status` and both handlers push onto
      `comments`, through whichever reference the selection holds. */
  class LegacyRecord {
    const id: string
    const operator: string
    const category: string
    const reportType: string
    const dueDate: string
    const receivedDate: Option<string>
    var status: string
    var comments: seq<LegacyComment>

    constructor (v: LegacySubmission)
      ensures Value() == v
    {
      id := v.id;
      operator := v.operator;
      category := v.category;
      reportType := v.reportType;
      dueDate := v.dueDate;
      receivedDate := v.receivedDate;
      status := v.status;
      comments := v.comments;
    }

    function Value(): LegacySubmission
      reads this
    {
      LegacySubmission(id, operator, category, reportType, dueDate, receivedDate, status, comments)
    }
  }

  // ---------------------------------------------------------------------------------------
  // Statistics

  /** How many records have one of the given statuses. */
  function CountIn(subs: seq<LegacySubmission>, statuses: seq<string>): (n: nat)
    ensures n <= |subs|
  {
    if subs == [] then 0
    else (if subs[0].status in statuses then 1 else 0) + CountIn(subs[1..], statuses)
  }

  /** Counting two disjoint status lists together is counting them apart. */
  lemma {:induction false} CountInUnion(subs: seq<LegacySubmission>, a: seq<string>, b: seq<string>)
    requires forall st :: st in a ==> st !in b
    ensures CountIn(subs, a + b) == CountIn(subs, a) + CountIn(subs, b)
  {
    if subs != [] {
      CountInUnion(subs[1..], a, b);
    }
  }

  /** The filter types of the eight stat cards, in display order. */
  const StatKeys: seq<string> :=
    ["all", "open", "under-review", "pending-approval", "approved", "compliant", "non-compliant", "rejected"]

  /** The object `calculateStats()` returns, one count per stat card. */
  datatype LegacyStats = LegacyStats(
    all: nat, open: nat, underReview: nat, pendingApproval: nat,
    approved: nat, compliant: nat, nonCompliant: nat, rejected: nat)
  {
    /** `stats[filterType] || 0`. */
    function Value(filterType: string): nat {
      if filterType == "all" then all
      else if filterType == "open" then open
      else if filterType == "under-review" then underReview
      else if filterType == "pending-approval" then pendingApproval
      else if filterType == "approved" then approved
      else if filterType == "compliant" then compliant
      else if filterType == "non-compliant" then nonCompliant
      else if filterType == "rejected" then rejected
      else 0
    }
  }

  /** `calculateStats()`, over every stored record. */
  function CalculateStats(subs: seq<LegacySubmission>): (r: LegacyStats)
    ensures forall k :: r.Value(k) <= |subs|
  {
    LegacyStats(
      |subs|,
      CountIn(subs, ["pending", "submitted", "in-review"]),
      CountIn(subs, ["in-review"]),
      CountIn(subs, ["pending"]),
      CountIn(subs, ["approved"]),
      CountIn(subs, ["approved"]),
      CountIn(subs, ["non-compliant"]),
      CountIn(subs, ["non-compliant"]))
  }

  /** "all" counts every record, "open" is pending plus submitted plus in review, and the
      aliases "compliant" and "rejected" count what "approved" and "non-compliant" count. */
  lemma StatsBuckets(subs: seq<LegacySubmission>)
    ensures var r := CalculateStats(subs);
      && r.all == |subs|
      && r.open == r.pendingApproval + CountIn(subs, ["submitted"]) + r.underReview
      && r.compliant == r.approved
      && r.rejected == r.nonCompliant
  {
    CountInUnion(subs, ["pending"], ["submitted"]);
    CountInUnion(subs, ["pending", "submitted"], ["in-review"]);
    assert ["pending"] + ["submitted"] == ["pending", "submitted"];
    assert ["pending", "submitted"] + ["in-review"] == ["pending", "submitted", "in-review"];
  }

  // ---------------------------------------------------------------------------------------
  // Filtering

  /** The status check of the table filter: the `switch` on the stat-card filter type. A
      filter type without a case leaves the check true. */
  predicate StatusMatch(filter: string, status: string) {
    if filter == "all" then true
    else if filter == "open" then status in ["pending", "submitted", "in-review"]
    else if filter == "under-review" then status == "in-review"
    else if filter == "pending-approval" then status == "pending"
    else if filter == "approved" || filter == "compliant" then status == "approved"
    else if filter == "non-compliant" || filter == "rejected" then status == "non-compliant"
    else true
  }

  /** The report-type check: `'all'` or the slug of the report type. */
  predicate ReportTypeMatch(filter: string, reportType: string) {
    filter == "all" || Slug(reportType) == filter
  }

  /** `getFilteredSubmissions()`. */
  function GetFilteredSubmissions(subs: seq<LegacySubmission>, filter: string, reportFilter: string): (r: seq<LegacySubmission>)
    ensures forall x :: x in r <==> x in subs && StatusMatch(filter, x.status) && ReportTypeMatch(reportFilter, x.reportType)
  {
    if subs == [] then []
    else
      var keep := StatusMatch(filter, subs[0].status) && ReportTypeMatch(reportFilter, subs[0].reportType);
      (if keep then [subs[0]] else []) + GetFilteredSubmissions(subs[1..], filter, reportFilter)
  }

  lemma {:induction false} FilteredIsSubsequence(subs: seq<LegacySubmission>, filter: string, reportFilter: string)
    ensures IsSubsequence(GetFilteredSubmissions(subs, filter, reportFilter), subs)
  {
    if subs != [] {
      FilteredIsSubsequence(subs[1..], filter, reportFilter);
      var rest := GetFilteredSubmissions(subs[1..], filter, reportFilter);
      if StatusMatch(filter, subs[0].status) && ReportTypeMatch(reportFilter, subs[0].reportType) {
        assert ([subs[0]] + rest)[1..] == rest;
      } else {
        assert [] + rest == rest;
      }
    }
  }

  /** With the report type at `'all'`, a filter whose matches are a status set keeps exactly
      as many rows as the records with such a status. */
  lemma {:induction false} FilteredCount(subs: seq<LegacySubmission>, filter: string, statuses: seq<string>)
    requires forall st :: StatusMatch(filter, st) <==> st in statuses
    ensures |GetFilteredSubmissions(subs, filter, "all")| == CountIn(subs, statuses)
  {
    if subs != [] {
      FilteredCount(subs[1..], filter, statuses);
    }
  }

  /** A filter type the switch does not handle (and "all") keeps every record. */
  lemma {:induction false} UnhandledFilterKeepsAll(subs: seq<LegacySubmission>, filter: string)
    requires filter !in StatKeys[1..]
    ensures GetFilteredSubmissions(subs, filter, "all") == subs
  {
    if subs != [] {
      UnhandledFilterKeepsAll(subs[1..], filter);
      assert [subs[0]] + subs[1..] == subs;
    }
  }

  /** Every stat card shows the number of rows its filter puts in the table. */
  lemma StatsMatchTable(subs: seq<LegacySubmission>, filter: string)
    requires filter in StatKeys
    ensures |GetFilteredSubmissions(subs, filter, "all")| == CalculateStats(subs).Value(filter)
  {
    if filter == "all" {
      UnhandledFilterKeepsAll(subs, filter);
    } else if filter == "open" {
      FilteredCount(subs, filter, ["pending", "submitted", "in-review"]);
    } else if filter == "under-review" {
      FilteredCount(subs, filter, ["in-review"]);
    } else if filter == "pending-approval" {
      FilteredCount(subs, filter, ["pending"]);
    } else if filter == "approved" || filter == "compliant" {
      FilteredCount(subs, filter, ["approved"]);
    } else {
      FilteredCount(subs, filter, ["non-compliant"]);
    }
  }

  // ---------------------------------------------------------------------------------------
  // Sorting

  /** `currentSort`; no column means the table is not sorted. */
  datatype LegacySort = LegacySort(column: Option<string>, direction: T.Direction)

  /** `handleSort(column)`: the same column flips the direction, another one starts ascending. */
  function NextLegacySort(prev: LegacySort, column: string): (r: LegacySort)
    ensures r.column == Some(column)
    ensures prev.column == Some(column) ==> r.direction != prev.direction
    ensures prev.column != Some(column) ==> r.direction == T.Asc
  {
    if prev.column == Some(column) then prev.(direction := if prev.direction == T.Asc then T.Desc else T.Asc)
    else LegacySort(Some(column), T.Asc)
  }

  /** The text value of a string field, by its property name. */
  function TextField(s: LegacySubmission, column: string): Option<string> {
    if column == "id" then Some(s.id)
    else if column == "operator" then Some(s.operator)
    else if column == "category" then Some(s.category)
    else if column == "reportType" then Some(s.reportType)
    else if column == "status" then Some(s.status)
    else None
  }

  /** `aVal < bVal` in the comparator: due dates as parsed timestamps (an unparsable one is NaN
      and never less), a received date only against another present one, the string fields
      by character order, and any other property never. */
  predicate Less(column: string, timestamp: string -> Option<int>, a: LegacySubmission, b: LegacySubmission) {
    if column == "dueDate" then
      timestamp(a.dueDate).Some? && timestamp(b.dueDate).Some? && timestamp(a.dueDate).value < timestamp(b.dueDate).value
    else if column == "receivedDate" then
      a.receivedDate.Some? && b.receivedDate.Some? && LexLess(a.receivedDate.value, b.receivedDate.value)
    else
      TextField(a, column).Some? && TextField(b, column).Some? && LexLess(TextField(a, column).value, TextField(b, column).value)
  }

  /** The comparator of the render sort: -1, 1 or 0 by `<`, `>` and the direction. */
  function LegacyCompare(column: string, dir: T.Direction, timestamp: string -> Option<int>,
                         a: LegacySubmission, b: LegacySubmission): int {
    if Less(column, timestamp, a, b) then (if dir == T.Asc then -1 else 1)
    else if Less(column, timestamp, b, a) then (if dir == T.Asc then 1 else -1)
    else 0
  }

  function LegacyComparator(column: string, dir: T.Direction, timestamp: string -> Option<int>)
    : (LegacySubmission, LegacySubmission) -> int
  {
    (a: LegacySubmission, b: LegacySubmission) => LegacyCompare(column, dir, timestamp, a, b)
  }

  /** Descending is ascending negated. */
  lemma LegacyCompareDesc(column: string, timestamp: string -> Option<int>, a: LegacySubmission, b: LegacySubmission)
    ensures LegacyCompare(column, T.Desc, timestamp, a, b) == -LegacyCompare(column, T.Asc, timestamp, a, b)
  {
  }

  /** A record whose value in the column is ordered: a parsable due date, a present received
      date; every record for the other columns. */
  predicate Ordered(column: string, timestamp: string -> Option<int>, x: LegacySubmission) {
    && (column == "dueDate" ==> timestamp(x.dueDate).Some?)
    && (column == "receivedDate" ==> x.receivedDate.Some?)
  }

  lemma LessAsymmetric(column: string, timestamp: string -> Option<int>, a: LegacySubmission, b: LegacySubmission)
    ensures Less(column, timestamp, a, b) ==> !Less(column, timestamp, b, a)
  {
    if column == "receivedDate" && a.receivedDate.Some? && b.receivedDate.Some? {
      StringCompareAntisymmetric(a.receivedDate.value, b.receivedDate.value);
    } else if column != "dueDate" && TextField(a, column).Some? && TextField(b, column).Some? {
      StringCompareAntisymmetric(TextField(a, column).value, TextField(b, column).value);
    }
  }

  /** Among ordered records "not less" is transitive. */
  lemma NotLessTransitive(column: string, timestamp: string -> Option<int>, a: LegacySubmission, b: LegacySubmission, c: LegacySubmission)
    requires Ordered(column, timestamp, a) && Ordered(column, timestamp, b) && Ordered(column, timestamp, c)
    requires !Less(column, timestamp, b, a) && !Less(column, timestamp, c, b)
    ensures !Less(column, timestamp, c, a)
  {
    if column == "receivedDate" {
      var x, y, z := a.receivedDate.value, b.receivedDate.value, c.receivedDate.value;
      StringCompareAntisymmetric(x, y);
      StringCompareAntisymmetric(y, z);
      StringCompareAntisymmetric(x, z);
      StringCompareTransitive(x, y, z);
    } else if column != "dueDate" && TextField(a, column).Some? {
      var x, y, z := TextField(a, column).value, TextField(b, column).value, TextField(c, column).value;
      StringCompareAntisymmetric(x, y);
      StringCompareAntisymmetric(y, z);
      StringCompareAntisymmetric(x, z);
      StringCompareTransitive(x, y, z);
    }
  }

  /** On ordered records the comparator is a total preorder in either direction. */
  lemma LegacyComparatorTotalPreorder(column: string, dir: T.Direction, timestamp: string -> Option<int>,
                                      elems: set<LegacySubmission>)
    requires forall x :: x in elems ==> Ordered(column, timestamp, x)
    ensures TotalPreorderOn(LegacyComparator(column, dir, timestamp), elems)
  {
    var cmp := LegacyComparator(column, dir, timestamp);
    forall a, b | a in elems && b in elems ensures cmp(a, b) <= 0 || cmp(b, a) <= 0 {
      LessAsymmetric(column, timestamp, a, b);
    }
    forall a, b, c | a in elems && b in elems && c in elems && cmp(a, b) <= 0 && cmp(b, c) <= 0
      ensures cmp(a, c) <= 0
    {
      LessAsymmetric(column, timestamp, a, b);
      LessAsymmetric(column, timestamp, b, c);
      LessAsymmetric(column, timestamp, a, c);
      if dir == T.Asc {
        NotLessTransitive(column, timestamp, a, b, c);
      } else {
        NotLessTransitive(column, timestamp, c, b, a);
      }
    }
  }

  /** The rows the table renders: the filtered records, sorted when a column is chosen. */
  function RenderedRows(subs: seq<LegacySubmission>, filter: string, reportFilter: string,
                        sort: LegacySort, timestamp: string -> Option<int>): seq<LegacySubmission> {
    var filtered := GetFilteredSubmissions(subs, filter, reportFilter);
    if Truthy(sort.column) then InsertionSort(filtered, LegacyComparator(sort.column.value, sort.direction, timestamp))
    else filtered
  }

  /** The rendered rows are the filtered records, reordered, and in comparator order when
      every one of them is ordered in the sort column. */
  lemma RenderedRowsSpec(subs: seq<LegacySubmission>, filter: string, reportFilter: string,
                         sort: LegacySort, timestamp: string -> Option<int>)
    requires Truthy(sort.column)
    requires forall x :: x in subs ==> Ordered(sort.column.value, timestamp, x)
    ensures var rows := RenderedRows(subs, filter, reportFilter, sort, timestamp);
      && multiset(rows) == multiset(GetFilteredSubmissions(subs, filter, reportFilter))
      && SortedBy(rows, LegacyComparator(sort.column.value, sort.direction, timestamp))
  {
    var filtered := GetFilteredSubmissions(subs, filter, reportFilter);
    var elems := set x | x in filtered;
    LegacyComparatorTotalPreorder(sort.column.value, sort.direction, timestamp, elems);
    InsertionSortSorted(filtered, LegacyComparator(sort.column.value, sort.direction, timestamp), elems);
  }

  // ---------------------------------------------------------------------------------------
  // The dashboard state and its handlers

  /** `statusConfig[status].label`, for the six configured statuses. */
  function Label(status: string): Option<string> {
    if status == "approved" then Some("Approved")
    else if status == "pending" then Some("Pending")
    else if status == "non-compliant" then Some("Non-Compliant")
    else if status == "overdue" then Some("Overdue")
    else if status == "in-review" then Some("In Review")
    else if status == "submitted" then Some("Submitted")
    else None
  }

  /** The text of the comment a status change pushes. */
  function StatusText(newStatus: string, reason: string): string
    requires Label(newStatus).Some?
  {
    "Status changed to " + Label(newStatus).value + ". Reason: " + reason
  }

  /** `records.find(s => s.id === id)`, `null` standing for `undefined`. */
  function FindById(records: seq<LegacyRecord>, id: string): (r: LegacyRecord?)
    ensures r != null ==> r in records && r.id == id
    ensures r == null <==> forall x :: x in records ==> x.id != id
  {
    if records == [] then null
    else if records[0].id == id then records[0]
    else FindById(records[1..], id)
  }

  /** The result of a modal handler. `Threw` is the status handler reaching a status without
      a configured label: the status has been assigned when the label lookup fails. */
  datatype Outcome = MissingFields | NoSelection | Updated | Threw

  class LegacyDashboard {
    const records: seq<LegacyRecord>
    const timestamp: string -> Option<int>
    var currentFilter: string
    var currentSort: LegacySort
    var currentReportTypeFilter: string
    var currentDateRangeFilter: string
    var selected: LegacyRecord?

    /** The selection always refers to a stored record. */
    predicate Valid()
      reads this
    {
      selected != null ==> selected in records
    }

    /** The store's contents now. */
    function Snapshot(): (r: seq<LegacySubmission>)
      reads this, records
      ensures |r| == |records|
    {
      seq(|records|, i requires 0 <= i < |records| reads records => records[i].Value())
    }

    /** The page as loaded. */
    constructor (store: seq<LegacyRecord>, parse: string -> Option<int>)
      ensures Valid()
      ensures records == store && timestamp == parse
      ensures currentFilter == "all" && currentSort == LegacySort(None, T.Asc)
      ensures currentReportTypeFilter == "all" && currentDateRangeFilter == "month"
      ensures selected == null
    {
      records := store;
      timestamp := parse;
      currentFilter := "all";
      currentSort := LegacySort(None, T.Asc);
      currentReportTypeFilter := "all";
      currentDateRangeFilter := "month";
      selected := null;
    }

    /** `handleFilterChange(filterType)`: a stat card was clicked. */
    method HandleFilterChange(filterType: string)
      modifies this
      ensures currentFilter == filterType
      ensures currentSort == old(currentSort) && selected == old(selected)
      ensures currentReportTypeFilter == old(currentReportTypeFilter)
      ensures currentDateRangeFilter == old(currentDateRangeFilter)
    {
      currentFilter := filterType;
    }

    /** The report-type drop-down's change listener. */
    method SetReportTypeFilter(value: string)
      modifies this
      ensures currentReportTypeFilter == value
      ensures currentFilter == old(currentFilter) && currentSort == old(currentSort) && selected == old(selected)
      ensures currentDateRangeFilter == old(currentDateRangeFilter)
    {
      currentReportTypeFilter := value;
    }

    /** The date-range drop-down's change listener; the value is stored and never read. */
    method SetDateRangeFilter(value: string)
      modifies this
      ensures currentDateRangeFilter == value
      ensures currentFilter == old(currentFilter) && currentSort == old(currentSort) && selected == old(selected)
      ensures currentReportTypeFilter == old(currentReportTypeFilter)
    {
      currentDateRangeFilter := value;
    }

    method HandleSort(column: string)
      modifies this
      ensures currentSort == NextLegacySort(old(currentSort), column)
      ensures currentFilter == old(currentFilter) && selected == old(selected)
      ensures currentReportTypeFilter == old(currentReportTypeFilter)
      ensures currentDateRangeFilter == old(currentDateRangeFilter)
    {
      if currentSort.column == Some(column) {
        currentSort := currentSort.(direction := if currentSort.direction == T.Asc then T.Desc else T.Asc);
      } else {
        currentSort := LegacySort(Some(column), T.Asc);
      }
    }

    /** The lookup opening the edit-status and add-comment modals. */
    method Select(id: string)
      modifies this
      requires Valid()
      ensures Valid()
      ensures selected == FindById(records, id)
      ensures currentFilter == old(currentFilter) && currentSort == old(currentSort)
      ensures currentReportTypeFilter == old(currentReportTypeFilter)
      ensures currentDateRangeFilter == old(currentDateRangeFilter)
    {
      selected := FindById(records, id);
    }

    /** `renderSubmissionTable()`'s rows: the filter's fresh array, sorted in place when a
        sort column is set. */
    method RenderRows() returns (rows: seq<LegacySubmission>)
      ensures rows == RenderedRows(Snapshot(), currentFilter, currentReportTypeFilter, currentSort, timestamp)
    {
      var filtered := GetFilteredSubmissions(Snapshot(), currentFilter, currentReportTypeFilter);
      var a := new LegacySubmission[|filtered|](i requires 0 <= i < |filtered| => filtered[i]);
      assert a[..] == filtered;
      if Truthy(currentSort.column) {
        SortInPlace(a, LegacyComparator(currentSort.column.value, currentSort.direction, timestamp));
      }
      rows := a[..];
    }

    /** `handleStatusUpdate()`. Both fields are required; the selected record's status is set,
        then a general comment naming the status's label and the reason is pushed. */
    method HandleStatusUpdate(newStatus: string, reason: string, freshId: int, now: string) returns (outcome: Outcome)
      requires Valid()
      modifies selected
      ensures outcome == MissingFields <==> newStatus == "" || reason == ""
      ensures outcome == NoSelection <==> newStatus != "" && reason != "" && selected == null
      ensures outcome == Threw <==> newStatus != "" && reason != "" && selected != null && Label(newStatus).None?
      ensures outcome in {MissingFields, NoSelection} ==> selected == null || unchanged(selected)
      ensures outcome in {Updated, Threw} ==> selected.status == newStatus
      ensures outcome == Updated ==>
        selected.comments == old(selected.comments) + [LegacyComment(freshId, "general", StatusText(newStatus, reason), now)]
      ensures outcome == Threw ==> selected.comments == old(selected.comments)
      ensures forall k :: 0 <= k < |records| && records[k] != selected ==> Snapshot()[k] == old(Snapshot()[k])
    {
      if newStatus == "" || reason == "" {
        return MissingFields;
      }
      if selected == null {
        return NoSelection;
      }
      selected.status := newStatus;
      var configured := Label(newStatus);
      if configured.None? {
        return Threw;
      }
      selected.comments := selected.comments + [LegacyComment(freshId, "general", StatusText(newStatus, reason), now)];
      outcome := Updated;
    }

    /** `handleAddComment()`. Both fields are required; the comment is pushed onto the selected
        record and its status stays as it was. */
    method HandleAddComment(commentType: string, commentText: string, freshId: int, now: string) returns (outcome: Outcome)
      requires Valid()
      modifies selected
      ensures outcome == MissingFields <==> commentType == "" || commentText == ""
      ensures outcome == NoSelection <==> commentType != "" && commentText != "" && selected == null
      ensures outcome != Threw
      ensures outcome != Updated ==> selected == null || unchanged(selected)
      ensures outcome == Updated ==> selected.status == old(selected.status)
      ensures outcome == Updated ==>
        selected.comments == old(selected.comments) + [LegacyComment(freshId, commentType, commentText, now)]
      ensures forall k :: 0 <= k < |records| && records[k] != selected ==> Snapshot()[k] == old(Snapshot()[k])
    {
      if commentType == "" || commentText == "" {
        return MissingFields;
      }
      if selected == null {
        return NoSelection;
      }
      selected.comments := selected.comments + [LegacyComment(freshId, commentType, commentText, now)];
      outcome := Updated;
    }
  }

  /** The six configured statuses are exactly those with a label. */
  lemma LabelDefinedForStatuses(status: string)
    ensures Label(status).Some? <==> status in ["approved", "pending", "non-compliant", "overdue", "in-review", "submitted"]
  {
  }
}
