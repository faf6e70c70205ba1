/**
 * The submissions table: per-column equality filters over the output of
 * `filterSubmissions`, a typed sort comparator with a key/direction toggle, grouping of the
 * rows by operator, the set of expanded operator groups, and the two record-replacing
 * updates that append to a submission's comments.
 */
module Table {
  import opened Optional
  import opened Strings
  import opened Statuses
  import opened Seqs
  import opened Data

  // ---------------------------------------------------------------------------------------
  // Column filters

  /** The nine columns that carry an equality filter. */
  datatype Column =
    | OperatorColumn | CategoryColumn | ReportTypeColumn | FrequencyColumn | PeriodColumn
    | LeaseNameColumn | PropertiesColumn | StatusColumn | ReviewerApproverColumn

  /** The value a column shows for a submission (a status shows as its string literal). */
  function FieldOf(s: Submission, col: Column): string {
    match col
    case OperatorColumn => s.operator
    case CategoryColumn => s.category
    case ReportTypeColumn => s.reportType
    case FrequencyColumn => s.frequency
    case PeriodColumn => s.period
    case LeaseNameColumn => s.leaseName
    case PropertiesColumn => s.properties
    case StatusColumn => Name(s.status)
    case ReviewerApproverColumn => s.reviewerApprover
  }

  /** The `columnFilters` state: one selected value per column, `"all"` meaning no filter. */
  datatype ColumnFilters = ColumnFilters(
    operator: string,
    category: string,
    reportType: string,
    frequency: string,
    period: string,
    leaseName: string,
    properties: string,
    status: string,
    reviewerApprover: string)
  {
    function Get(col: Column): string {
      match col
      case OperatorColumn => operator
      case CategoryColumn => category
      case ReportTypeColumn => reportType
      case FrequencyColumn => frequency
      case PeriodColumn => period
      case LeaseNameColumn => leaseName
      case PropertiesColumn => properties
      case StatusColumn => status
      case ReviewerApproverColumn => reviewerApprover
    }

    /** `{ ...prev, [column]: value }`. */
    function With(col: Column, value: string): (r: ColumnFilters)
      ensures r.Get(col) == value
      ensures forall other :: other != col ==> r.Get(other) == Get(other)
    {
      match col
      case OperatorColumn => this.(operator := value)
      case CategoryColumn => this.(category := value)
      case ReportTypeColumn => this.(reportType := value)
      case FrequencyColumn => this.(frequency := value)
      case PeriodColumn => this.(period := value)
      case LeaseNameColumn => this.(leaseName := value)
      case PropertiesColumn => this.(properties := value)
      case StatusColumn => this.(status := value)
      case ReviewerApproverColumn => this.(reviewerApprover := value)
    }
  }

  /** The initial filters, restored by "clear all". */
  const AllFilters: ColumnFilters :=
    ColumnFilters("all", "all", "all", "all", "all", "all", "all", "all", "all")

  lemma AllFiltersAreAll(col: Column)
    ensures AllFilters.Get(col) == "all"
  {
  }

  /** One column's check: its filter is `"all"` or the row shows exactly the selected value. */
  predicate ColumnOk(s: Submission, f: ColumnFilters, col: Column) {
    f.Get(col) == "all" || FieldOf(s, col) == f.Get(col)
  }

  /** The chain of nine early-return checks of the column stage. */
  predicate PassesColumnFilters(s: Submission, f: ColumnFilters) {
    && (f.operator == "all" || s.operator == f.operator)
    && (f.category == "all" || s.category == f.category)
    && (f.reportType == "all" || s.reportType == f.reportType)
    && (f.frequency == "all" || s.frequency == f.frequency)
    && (f.period == "all" || s.period == f.period)
    && (f.leaseName == "all" || s.leaseName == f.leaseName)
    && (f.properties == "all" || s.properties == f.properties)
    && (f.status == "all" || Name(s.status) == f.status)
    && (f.reviewerApprover == "all" || s.reviewerApprover == f.reviewerApprover)
  }

  /** A row passes the chain exactly when every column's own check holds. */
  lemma PassesColumnFiltersIff(s: Submission, f: ColumnFilters)
    ensures PassesColumnFilters(s, f) <==> forall col :: ColumnOk(s, f, col)
  {
    if PassesColumnFilters(s, f) {
      forall col ensures ColumnOk(s, f, col) {
      }
    } else {
      assert !ColumnOk(s, f, OperatorColumn) || !ColumnOk(s, f, CategoryColumn)
        || !ColumnOk(s, f, ReportTypeColumn) || !ColumnOk(s, f, FrequencyColumn)
        || !ColumnOk(s, f, PeriodColumn) || !ColumnOk(s, f, LeaseNameColumn)
        || !ColumnOk(s, f, PropertiesColumn) || !ColumnOk(s, f, StatusColumn)
        || !ColumnOk(s, f, ReviewerApproverColumn);
    }
  }

  /** The column stage: `.filter(...)` with the nine checks. */
  function ColumnStage(rows: seq<Submission>, f: ColumnFilters): (r: seq<Submission>)
    ensures forall x :: x in r <==> x in rows && PassesColumnFilters(x, f)
  {
    if rows == [] then []
    else (if PassesColumnFilters(rows[0], f) then [rows[0]] else []) + ColumnStage(rows[1..], f)
  }

  /** The column stage adds no row and keeps the order of those it keeps. */
  lemma {:induction false} ColumnStageIsSubsequence(rows: seq<Submission>, f: ColumnFilters)
    ensures IsSubsequence(ColumnStage(rows, f), rows)
  {
    if rows != [] {
      ColumnStageIsSubsequence(rows[1..], f);
      var rest := ColumnStage(rows[1..], f);
      if PassesColumnFilters(rows[0], f) {
        assert ([rows[0]] + rest)[1..] == rest;
      } else {
        assert [] + rest == rest;
      }
    }
  }

  /** A column whose filter is not `"all"` shows exactly the selected value in every row kept. */
  lemma ColumnStageForcesEquality(rows: seq<Submission>, f: ColumnFilters, col: Column, x: Submission)
    requires f.Get(col) != "all"
    requires x in ColumnStage(rows, f)
    ensures FieldOf(x, col) == f.Get(col)
  {
    PassesColumnFiltersIff(x, f);
    assert ColumnOk(x, f, col);
  }

  /** With every filter at `"all"` the column stage keeps every row. */
  lemma {:induction false} ColumnStageCleared(rows: seq<Submission>)
    ensures ColumnStage(rows, AllFilters) == rows
  {
    if rows != [] {
      ColumnStageCleared(rows[1..]);
      assert [rows[0]] + rows[1..] == rows;
    }
  }

  // ---------------------------------------------------------------------------------------
  // Sorting

  /** The thirteen sortable columns: the nine filter columns, the comments, the two dates and
      the day count. */
  datatype SortKey =
    | ColumnKey(col: Column)
    | CommentsKey
    | DueDateKey
    | ReceivedDateKey
    | DaysUnderStatusKey
  {
    predicate IsDate() {
      DueDateKey? || ReceivedDateKey?
    }

    predicate IsText() {
      ColumnKey? || CommentsKey?
    }
  }

  datatype Direction = Asc | Desc

  /** The `sortConfig` state; no key means the rows keep their order. */
  datatype SortConfig = SortConfig(key: Option<SortKey>, direction: Direction)

  const InitialSort: SortConfig := SortConfig(None, Asc)

  /** `handleSort(key)`: the key always becomes `key`; the direction is descending exactly when
      the same key was already sorted ascending. */
  function NextSort(prev: SortConfig, key: SortKey): (r: SortConfig)
    ensures r.key == Some(key)
    ensures r.direction == Desc <==> prev.key == Some(key) && prev.direction == Asc
  {
    SortConfig(Some(key), if prev.key == Some(key) && prev.direction == Asc then Desc else Asc)
  }

  /** Clicking the same header again flips the direction; a different header starts ascending. */
  lemma NextSortToggles(prev: SortConfig, k: SortKey, other: SortKey)
    ensures NextSort(NextSort(prev, k), k).direction != NextSort(prev, k).direction
    ensures other != k ==> NextSort(NextSort(prev, k), other).direction == Asc
  {
  }

  /** `String(value).toLowerCase()` input of a text column; an absent comment is
      stringified as "undefined". */
  function SortText(s: Submission, key: SortKey): string
    requires key.IsText()
  {
    match key
    case ColumnKey(col) => FieldOf(s, col)
    case CommentsKey => s.comments.GetOr("undefined")
  }

  /** `new Date(value).getTime()` of a date column; `None` stands for NaN: an absent
      received date or a string `timestamp` does not parse. */
  function DateValue(s: Submission, key: SortKey, timestamp: string -> Option<int>): Option<int>
    requires key.IsDate()
  {
    if key.DueDateKey? then timestamp(s.dueDate)
    else if s.receivedDate.Some? then timestamp(s.receivedDate.value)
    else None
  }

  /** The sort comparator. A comparator result of NaN counts as 0, as array sorting does. */
  function Compare(cfg: SortConfig, timestamp: string -> Option<int>, a: Submission, b: Submission): int {
    match cfg.key
    case None => 0
    case Some(key) =>
      if key.IsDate() then
        var da := DateValue(a, key, timestamp);
        var db := DateValue(b, key, timestamp);
        if da.Some? && db.Some? then
          (if cfg.direction == Asc then da.value - db.value else db.value - da.value)
        else 0
      else if key.DaysUnderStatusKey? then
        (if cfg.direction == Asc then a.daysUnderStatus - b.daysUnderStatus
         else b.daysUnderStatus - a.daysUnderStatus)
      else
        var c := StringCompare(ToLower(SortText(a, key)), ToLower(SortText(b, key)));
        if cfg.direction == Asc then c else -c
  }

  function Comparator(cfg: SortConfig, timestamp: string -> Option<int>): (Submission, Submission) -> int {
    (a: Submission, b: Submission) => Compare(cfg, timestamp, a, b)
  }

  /** `.sort(comparator)`. */
  function SortRows(rows: seq<Submission>, cfg: SortConfig, timestamp: string -> Option<int>): seq<Submission> {
    InsertionSort(rows, Comparator(cfg, timestamp))
  }

  /** Descending is ascending negated, for every key. */
  lemma CompareDescNegatesAsc(key: Option<SortKey>, timestamp: string -> Option<int>, a: Submission, b: Submission)
    ensures Compare(SortConfig(key, Desc), timestamp, a, b) == -Compare(SortConfig(key, Asc), timestamp, a, b)
  {
  }

  /** Without a key every comparison is 0 and the rows keep their order. */
  lemma SortWithoutKey(rows: seq<Submission>, d: Direction, timestamp: string -> Option<int>)
    ensures SortRows(rows, SortConfig(None, d), timestamp) == rows
  {
    InsertionSortOfSorted(rows, Comparator(SortConfig(None, d), timestamp));
  }

  /** The day count compares numerically: the sign of the result is the sign of the difference. */
  lemma CompareDaysNumeric(timestamp: string -> Option<int>, a: Submission, b: Submission)
    ensures var c := Compare(SortConfig(Some(DaysUnderStatusKey), Asc), timestamp, a, b);
      && (c < 0 <==> a.daysUnderStatus < b.daysUnderStatus)
      && (c == 0 <==> a.daysUnderStatus == b.daysUnderStatus)
  {
  }

  /** A text column compares the lower-cased values: below, equal or above. */
  lemma CompareTextLowerCased(key: SortKey, timestamp: string -> Option<int>, a: Submission, b: Submission)
    requires key.IsText()
    ensures var c := Compare(SortConfig(Some(key), Asc), timestamp, a, b);
      var la := ToLower(SortText(a, key));
      var lb := ToLower(SortText(b, key));
      && (c < 0 <==> LexLess(la, lb))
      && (c == 0 <==> la == lb)
      && (c > 0 <==> LexLess(lb, la))
  {
    var la := ToLower(SortText(a, key));
    var lb := ToLower(SortText(b, key));
    StringCompareAntisymmetric(la, lb);
    if LexLess(la, lb) {
      LexLessAsymmetric(la, lb);
    }
  }

  /** A date column compares timestamps, and an unparsable or absent date compares equal to
      everything. */
  lemma CompareDates(key: SortKey, timestamp: string -> Option<int>, a: Submission, b: Submission)
    requires key.IsDate()
    ensures var c := Compare(SortConfig(Some(key), Asc), timestamp, a, b);
      var da := DateValue(a, key, timestamp);
      var db := DateValue(b, key, timestamp);
      && (da.Some? && db.Some? ==> (c < 0 <==> da.value < db.value) && (c == 0 <==> da.value == db.value))
      && (da.None? || db.None? ==> c == 0)
  {
  }

  /** A row whose sort value is a number: any row for a non-date key, and a row whose date
      parses for a date key. */
  predicate Comparable(cfg: SortConfig, timestamp: string -> Option<int>, x: Submission) {
    cfg.key.Some? && cfg.key.value.IsDate() ==> DateValue(x, cfg.key.value, timestamp).Some?
  }

  lemma CompareTotal(cfg: SortConfig, timestamp: string -> Option<int>, a: Submission, b: Submission)
    ensures Compare(cfg, timestamp, a, b) <= 0 || Compare(cfg, timestamp, b, a) <= 0
  {
    if cfg.key.Some? && cfg.key.value.IsText() {
      StringCompareAntisymmetric(ToLower(SortText(a, cfg.key.value)), ToLower(SortText(b, cfg.key.value)));
    }
  }

  lemma CompareTransitive(cfg: SortConfig, timestamp: string -> Option<int>, a: Submission, b: Submission, c: Submission)
    requires Comparable(cfg, timestamp, a) && Comparable(cfg, timestamp, b) && Comparable(cfg, timestamp, c)
    requires Compare(cfg, timestamp, a, b) <= 0 && Compare(cfg, timestamp, b, c) <= 0
    ensures Compare(cfg, timestamp, a, c) <= 0
  {
    if cfg.key.Some? && cfg.key.value.IsText() {
      var key := cfg.key.value;
      var la, lb, lc := ToLower(SortText(a, key)), ToLower(SortText(b, key)), ToLower(SortText(c, key));
      if cfg.direction == Asc {
        StringCompareTransitive(la, lb, lc);
      } else {
        StringCompareAntisymmetric(la, lb);
        StringCompareAntisymmetric(lb, lc);
        StringCompareAntisymmetric(la, lc);
        StringCompareTransitive(lc, lb, la);
      }
    }
  }

  /** The comparator is a total preorder on rows whose sort values are numbers or strings. */
  lemma ComparatorTotalPreorder(cfg: SortConfig, timestamp: string -> Option<int>, elems: set<Submission>)
    requires forall x :: x in elems ==> Comparable(cfg, timestamp, x)
    ensures TotalPreorderOn(Comparator(cfg, timestamp), elems)
  {
    var cmp := Comparator(cfg, timestamp);
    forall a, b | a in elems && b in elems ensures cmp(a, b) <= 0 || cmp(b, a) <= 0 {
      CompareTotal(cfg, timestamp, a, b);
    }
    forall a, b, c | a in elems && b in elems && c in elems && cmp(a, b) <= 0 && cmp(b, c) <= 0
      ensures cmp(a, c) <= 0
    {
      CompareTransitive(cfg, timestamp, a, b, c);
    }
  }

  /** The sorted rows are a permutation of the input, in comparator order whenever every row's
      sort value is a number or a string. */
  lemma SortRowsSpec(rows: seq<Submission>, cfg: SortConfig, timestamp: string -> Option<int>)
    requires forall x :: x in rows ==> Comparable(cfg, timestamp, x)
    ensures multiset(SortRows(rows, cfg, timestamp)) == multiset(rows)
    ensures SortedBy(SortRows(rows, cfg, timestamp), Comparator(cfg, timestamp))
  {
    var elems := set x | x in rows;
    ComparatorTotalPreorder(cfg, timestamp, elems);
    InsertionSortSorted(rows, Comparator(cfg, timestamp), elems);
  }

  // ---------------------------------------------------------------------------------------
  // The filtered and sorted rows

  /** `filteredAndSortedData`: shared filter, then column stage, then sort. */
  function Pipeline(subs: seq<Submission>, c: Criteria, f: ColumnFilters, cfg: SortConfig,
                    timestamp: string -> Option<int>): seq<Submission> {
    SortRows(ColumnStage(FilterSubmissions(subs, c), f), cfg, timestamp)
  }

  /** A row is shown exactly when it meets the criteria and the column filters, as often as
      it occurs in the store. */
  lemma PipelineMembers(subs: seq<Submission>, c: Criteria, f: ColumnFilters, cfg: SortConfig,
                        timestamp: string -> Option<int>, x: Submission)
    ensures x in Pipeline(subs, c, f, cfg, timestamp) <==> x in subs && Matches(x, c) && PassesColumnFilters(x, f)
  {
    var staged := ColumnStage(FilterSubmissions(subs, c), f);
    assert multiset(Pipeline(subs, c, f, cfg, timestamp)) == multiset(staged);
    assert x in Pipeline(subs, c, f, cfg, timestamp) <==> x in multiset(staged);
  }

  /** The column stage keeps the order of the records in the store. */
  lemma ColumnStageOfFilterIsSubsequence(subs: seq<Submission>, c: Criteria, f: ColumnFilters)
    ensures IsSubsequence(ColumnStage(FilterSubmissions(subs, c), f), FilterSubmissions(subs, c))
    ensures IsSubsequence(ColumnStage(FilterSubmissions(subs, c), f), subs)
  {
    ColumnStageIsSubsequence(FilterSubmissions(subs, c), f);
    FilterIsSubsequence(subs, c);
    SubsequenceTrans(ColumnStage(FilterSubmissions(subs, c), f), FilterSubmissions(subs, c), subs);
  }

  /** With the column filters cleared and no sort key, the table shows `filterSubmissions`. */
  lemma PipelineInitial(subs: seq<Submission>, c: Criteria, timestamp: string -> Option<int>)
    ensures Pipeline(subs, c, AllFilters, InitialSort, timestamp) == FilterSubmissions(subs, c)
  {
    ColumnStageCleared(FilterSubmissions(subs, c));
    SortWithoutKey(FilterSubmissions(subs, c), Asc, timestamp);
  }

  // ---------------------------------------------------------------------------------------
  // Unique column values

  function ColumnValues(subs: seq<Submission>, col: Column): (r: seq<string>)
    ensures |r| == |subs|
    ensures forall i :: 0 <= i < |subs| ==> r[i] == FieldOf(subs[i], col)
  {
    if subs == [] then [] else [FieldOf(subs[0], col)] + ColumnValues(subs[1..], col)
  }

  /** `.filter(value => value && value.trim() !== "")`. */
  function NonBlank(vals: seq<string>): (r: seq<string>)
    ensures forall v :: v in r <==> v in vals && !IsBlank(v)
  {
    if vals == [] then []
    else
      TrimEmptyIffBlank(vals[0]);
      (if vals[0] != "" && Trim(vals[0]) != "" then [vals[0]] else []) + NonBlank(vals[1..])
  }

  /** `getUniqueValues(field)`: the distinct values of a column over every stored record,
      without empty or white-space-only ones, sorted. */
  function UniqueValues(subs: seq<Submission>, col: Column): seq<string> {
    InsertionSort(NonBlank(Dedup(ColumnValues(subs, col))), StringCompare)
  }

  lemma {:induction false} NonBlankDistinct(vals: seq<string>)
    requires Distinct(vals)
    ensures Distinct(NonBlank(vals))
  {
    if vals != [] {
      assert Distinct(vals[1..]);
      NonBlankDistinct(vals[1..]);
      assert vals[0] !in vals[1..];
    }
  }

  /** Comparing strings with `<` and `>` is a total preorder. */
  lemma StringCompareTotalPreorder(elems: set<string>)
    ensures TotalPreorderOn(StringCompare, elems)
  {
    forall a, b, c | a in elems && b in elems && c in elems && StringCompare(a, b) <= 0 && StringCompare(b, c) <= 0
      ensures StringCompare(a, c) <= 0
    {
      StringCompareTransitive(a, b, c);
    }
    forall a, b | a in elems && b in elems ensures StringCompare(a, b) <= 0 || StringCompare(b, a) <= 0 {
      StringCompareAntisymmetric(a, b);
    }
  }

  /** The options offered appear each once, in strictly increasing order. */
  lemma UniqueValuesSorted(subs: seq<Submission>, col: Column)
    ensures var r := UniqueValues(subs, col);
      forall i, j :: 0 <= i < j < |r| ==> LexLess(r[i], r[j])
  {
    var vals := ColumnValues(subs, col);
    var kept := NonBlank(Dedup(vals));
    var r := UniqueValues(subs, col);
    DedupSpec(vals);
    NonBlankDistinct(Dedup(vals));
    var elems := set v | v in kept;
    StringCompareTotalPreorder(elems);
    InsertionSortSorted(kept, StringCompare, elems);
    DistinctPermutation(kept, r);
    forall i, j | 0 <= i < j < |r| ensures LexLess(r[i], r[j]) {
      StringCompareAntisymmetric(r[i], r[j]);
    }
  }

  /** The options offered are exactly the non-blank values some stored record shows in the
      column. */
  lemma UniqueValuesMembers(subs: seq<Submission>, col: Column, v: string)
    ensures v in UniqueValues(subs, col) <==> !IsBlank(v) && exists s :: s in subs && FieldOf(s, col) == v
  {
    var vals := ColumnValues(subs, col);
    var kept := NonBlank(Dedup(vals));
    DedupSpec(vals);
    assert v in UniqueValues(subs, col) <==> v in multiset(kept);
    if exists s :: s in subs && FieldOf(s, col) == v {
      var s :| s in subs && FieldOf(s, col) == v;
      var k :| 0 <= k < |subs| && subs[k] == s;
      assert vals[k] == v;
    }
    if v in vals {
      var k :| 0 <= k < |vals| && vals[k] == v;
      assert subs[k] in subs;
    }
  }

  // ---------------------------------------------------------------------------------------
  // Grouping by operator

  function OperatorsOf(rows: seq<Submission>): (r: seq<string>)
    ensures |r| == |rows|
  {
    seq(|rows|, i requires 0 <= i < |rows| => rows[i].operator)
  }

  /** The group keys in the order `Object.keys` lists them: first-seen order. */
  function GroupKeys(rows: seq<Submission>): seq<string> {
    Dedup(OperatorsOf(rows))
  }

  /** The rows of one operator's group. */
  function RowsOf(rows: seq<Submission>, op: string): seq<Submission> {
    if rows == [] then []
    else (if rows[0].operator == op then [rows[0]] else []) + RowsOf(rows[1..], op)
  }

  /** An operator's group holds exactly that operator's rows. */
  lemma {:induction false} RowsOfMembers(rows: seq<Submission>, op: string)
    ensures forall x :: x in RowsOf(rows, op) <==> x in rows && x.operator == op
  {
    if rows != [] {
      RowsOfMembers(rows[1..], op);
      assert forall x :: x in rows <==> x == rows[0] || x in rows[1..];
    }
  }

  lemma {:induction false} RowsOfSnoc(rows: seq<Submission>, x: Submission, op: string)
    ensures RowsOf(rows + [x], op) == RowsOf(rows, op) + (if x.operator == op then [x] else [])
  {
    if rows == [] {
      assert [] + [x] == [x];
    } else {
      assert (rows + [x])[0] == rows[0];
      assert (rows + [x])[1..] == rows[1..] + [x];
      RowsOfSnoc(rows[1..], x, op);
    }  }

  /** What the reduce has built after `rows`: the keys in first-seen order and, for each,
      its rows; an operator without a key has no rows. */
  ghost predicate Grouped(rows: seq<Submission>, keys: seq<string>, groups: map<string, seq<Submission>>) {
    && keys == GroupKeys(rows)
    && (forall op :: op in groups <==> op in keys)
    && (forall op :: op in groups ==> groups[op] == RowsOf(rows, op))
    && (forall op :: op !in groups ==> RowsOf(rows, op) == [])
  }

  lemma GroupKeysSnoc(rows: seq<Submission>, x: Submission)
    ensures GroupKeys(rows + [x]) ==
              if x.operator in GroupKeys(rows) then GroupKeys(rows) else GroupKeys(rows) + [x.operator]
  {
    var ops := OperatorsOf(rows + [x]);
    assert ops[..|rows|] == OperatorsOf(rows);
  }

  /** One row of the reduce: a new operator gets a key and an empty list, then the row is
      pushed onto its operator's list. */
  lemma GroupedSnoc(rows: seq<Submission>, x: Submission, keys: seq<string>, groups: map<string, seq<Submission>>)
    requires Grouped(rows, keys, groups)
    ensures Grouped(rows + [x],
                    if x.operator in groups then keys else keys + [x.operator],
                    groups[x.operator := (if x.operator in groups then groups[x.operator] else []) + [x]])
  {
    var op := x.operator;
    GroupKeysSnoc(rows, x);
    var groups' := groups[op := (if op in groups then groups[op] else []) + [x]];
    forall o | o in groups'
      ensures groups'[o] == RowsOf(rows + [x], o)
    {
      RowsOfSnoc(rows, x, o);
    }
    forall o | o !in groups'
      ensures RowsOf(rows + [x], o) == []
    {
      RowsOfSnoc(rows, x, o);
    }
  }

  /** The reduce's state after row `i` in terms of its state before it. */
  lemma GroupedStep(rows: seq<Submission>, i: int, keys: seq<string>, groups: map<string, seq<Submission>>)
    requires 0 <= i < |rows|
    requires Grouped(rows[..i], keys, groups)
    ensures Grouped(rows[..i + 1],
                    if rows[i].operator in groups then keys else keys + [rows[i].operator],
                    groups[rows[i].operator :=
                             (if rows[i].operator in groups then groups[rows[i].operator] else []) + [rows[i]]])
  {
    assert rows[..i + 1] == rows[..i] + [rows[i]];
    GroupedSnoc(rows[..i], rows[i], keys, groups);
  }

  /** Once every row is in, the state is the grouping of all of them. */
  lemma GroupedAll(rows: seq<Submission>, keys: seq<string>, groups: map<string, seq<Submission>>)
    requires Grouped(rows[..|rows|], keys, groups)
    ensures keys == GroupKeys(rows)
    ensures forall op :: op in groups <==> op in keys
    ensures forall op :: op in groups ==> groups[op] == RowsOf(rows, op)
  {
    assert rows[..|rows|] == rows;
  }

  /** `groupedData`: the reduce that pushes each row into its operator's list, creating the
      list (and so the key) on the operator's first row. */
  method GroupByOperator(rows: seq<Submission>) returns (keys: seq<string>, groups: map<string, seq<Submission>>)
    ensures keys == GroupKeys(rows)
    ensures forall op :: op in groups <==> op in keys
    ensures forall op :: op in groups ==> groups[op] == RowsOf(rows, op)
  {
    keys := [];
    groups := map[];
    var i := 0;
    while i < |rows|
      invariant 0 <= i <= |rows|
      invariant Grouped(rows[..i], keys, groups)
    {
      var sub := rows[i];
      var op := sub.operator;
      GroupedStep(rows, i, keys, groups);
      // `if (!groups[operator]) groups[operator] = []`, then the push
      var group := if op in groups then groups[op] else [];
      if op !in groups {
        keys := keys + [op];
      }
      groups := groups[op := group + [sub]];
      i := i + 1;
    }
    GroupedAll(rows, keys, groups);
  }

  /** The set of operators the rows show. */
  function OperatorSet(rows: seq<Submission>): set<string> {
    set x | x in rows :: x.operator
  }

  /** The group keys are the operators of the rows, each once. */
  lemma GroupKeysSpec(rows: seq<Submission>)
    ensures Distinct(GroupKeys(rows))
    ensures forall op :: op in GroupKeys(rows) <==> op in OperatorSet(rows)
  {
    DedupSpec(OperatorsOf(rows));
    forall op ensures op in OperatorsOf(rows) <==> op in OperatorSet(rows) {
      if op in OperatorSet(rows) {
        var x :| x in rows && x.operator == op;
        var k :| 0 <= k < |rows| && rows[k] == x;
        assert OperatorsOf(rows)[k] == op;
      }
    }
  }

  /** An operator no row shows has an empty group. */
  lemma {:induction false} RowsOfAbsent(rows: seq<Submission>, op: string)
    requires op !in OperatorSet(rows)
    ensures RowsOf(rows, op) == []
  {
    if rows != [] {
      assert rows[0] in rows;
      assert OperatorSet(rows[1..]) <= OperatorSet(rows);
      RowsOfAbsent(rows[1..], op);
    }
  }

  /** Groups appear in first-seen order: the keys of any prefix of the rows are a prefix of
      the keys of all of them. */
  lemma GroupKeysFirstSeen(rows: seq<Submission>, n: nat)
    requires n <= |rows|
    ensures GroupKeys(rows[..n]) <= GroupKeys(rows)
  {
    assert OperatorsOf(rows[..n]) == OperatorsOf(rows)[..n];
    DedupPrefix(OperatorsOf(rows), n);
  }

  /** Each group keeps the rows' order. */
  lemma {:induction false} RowsOfIsSubsequence(rows: seq<Submission>, op: string)
    ensures IsSubsequence(RowsOf(rows, op), rows)
  {
    if rows != [] {
      RowsOfIsSubsequence(rows[1..], op);
      var rest := RowsOf(rows[1..], op);
      if rows[0].operator == op {
        assert ([rows[0]] + rest)[1..] == rest;
      } else {
        assert [] + rest == rest;
      }
    }
  }

  /** The total size of the groups listed in `keys`. */
  function GroupSizes(rows: seq<Submission>, keys: seq<string>): nat {
    if keys == [] then 0
    else GroupSizes(rows, keys[..|keys| - 1]) + |RowsOf(rows, keys[|keys| - 1])|
  }

  lemma {:induction false} GroupSizesSnoc(rows: seq<Submission>, x: Submission, keys: seq<string>)
    requires Distinct(keys)
    ensures GroupSizes(rows + [x], keys) == GroupSizes(rows, keys) + (if x.operator in keys then 1 else 0)
  {
    if keys != [] {
      var init := keys[..|keys| - 1];
      var k := keys[|keys| - 1];
      assert keys == init + [k];
      assert Distinct(init);
      assert k !in init;
      GroupSizesSnoc(rows, x, init);
      RowsOfSnoc(rows, x, k);
    }
  }

  /** Every row lands in exactly one group: the group sizes add up to the number of rows. */
  lemma {:induction false} GroupSizesSum(rows: seq<Submission>)
    ensures GroupSizes(rows, GroupKeys(rows)) == |rows|
  {
    if rows != [] {
      var init := rows[..|rows| - 1];
      var x := rows[|rows| - 1];
      assert rows == init + [x];
      assert OperatorsOf(rows)[..|rows| - 1] == OperatorsOf(init);
      GroupSizesSum(init);
      GroupKeysSpec(init);
      var keys := GroupKeys(init);
      GroupSizesSnoc(init, x, keys);
      if x.operator !in keys {
        assert GroupKeys(rows) == keys + [x.operator];
        assert (keys + [x.operator])[..|keys|] == keys;
        RowsOfSnoc(init, x, x.operator);
        RowsOfAbsent(init, x.operator);
      }
    }
  }

  // ---------------------------------------------------------------------------------------
  // Comment-appending updates

  /** The comment text after appending `line`: separated by a blank line from a non-empty
      existing comment, the line alone otherwise. */
  function AppendComment(existing: Option<string>, line: string): (r: string)
    ensures |r| == (if Truthy(existing) then |existing.value| + 2 else 0) + |line|
    ensures r[|r| - |line|..] == line
    ensures Truthy(existing) ==> r[..|existing.value| + 2] == existing.value + "\n\n"
  {
    if Truthy(existing) then existing.value + "\n\n" + line else line
  }

  function StatusChangeLine(st: Status, reason: string): string {
    "Status changed to " + Name(st) + ": " + reason
  }

  function CommentLine(commentType: string, comment: string): string {
    "[" + commentType + "] " + comment
  }

  /** The record after a status change. */
  function WithStatusChange(s: Submission, st: Status, reason: string): (r: Submission)
    ensures r.status == st
    ensures r.comments == Some(AppendComment(s.comments, StatusChangeLine(st, reason)))
    ensures r.(status := s.status, comments := s.comments) == s
  {
    s.(status := st, comments := Some(AppendComment(s.comments, StatusChangeLine(st, reason))))
  }

  /** The record after a comment is added. */
  function WithComment(s: Submission, comment: string, commentType: string): (r: Submission)
    ensures r.comments == Some(AppendComment(s.comments, CommentLine(commentType, comment)))
    ensures r.(comments := s.comments) == s
  {
    s.(comments := Some(AppendComment(s.comments, CommentLine(commentType, comment))))
  }

  /** `prev.map(...)` replacing each record with the given id by its status-changed copy. */
  function ApplyStatusUpdate(subs: seq<Submission>, id: string, st: Status, reason: string): (r: seq<Submission>)
    ensures |r| == |subs|
    ensures forall i :: 0 <= i < |subs| ==>
      r[i] == (if subs[i].id == id then WithStatusChange(subs[i], st, reason) else subs[i])
  {
    if subs == [] then []
    else
      var head := if subs[0].id == id then WithStatusChange(subs[0], st, reason) else subs[0];
      [head] + ApplyStatusUpdate(subs[1..], id, st, reason)
  }

  /** `prev.map(...)` replacing each record with the given id by its commented copy. */
  function ApplyCommentAdd(subs: seq<Submission>, id: string, comment: string, commentType: string): (r: seq<Submission>)
    ensures |r| == |subs|
    ensures forall i :: 0 <= i < |subs| ==>
      r[i] == (if subs[i].id == id then WithComment(subs[i], comment, commentType) else subs[i])
  {
    if subs == [] then []
    else
      var head := if subs[0].id == id then WithComment(subs[0], comment, commentType) else subs[0];
      [head] + ApplyCommentAdd(subs[1..], id, comment, commentType)
  }

  /** An id no record has leaves the store as it is. */
  lemma UpdateUnknownId(subs: seq<Submission>, id: string, st: Status, reason: string, comment: string, commentType: string)
    requires forall x :: x in subs ==> x.id != id
    ensures ApplyStatusUpdate(subs, id, st, reason) == subs
    ensures ApplyCommentAdd(subs, id, comment, commentType) == subs
  {
    assert forall i :: 0 <= i < |subs| ==> subs[i] in subs;
  }

  /** A first comment is the line alone; a later one keeps the old text, a blank line, then
      the line. */
  lemma AppendCommentCases(existing: Option<string>, line: string)
    ensures !Truthy(existing) ==> AppendComment(existing, line) == line
    ensures Truthy(existing) ==> AppendComment(existing, line) == existing.value + "\n\n" + line
  {
    var r := AppendComment(existing, line);
    if Truthy(existing) {
      assert r == r[..|existing.value| + 2] + r[|r| - |line|..];
    } else {
      assert r == r[|r| - |line|..];
    }
  }

  // ---------------------------------------------------------------------------------------
  // The component state

  /** The table component: the four filter props, the date parser, and its state. */
  class SubmissionTable {
    const criteria: Criteria
    const timestamp: string -> Option<int>
    var submissions: seq<Submission>
    var columnFilters: ColumnFilters
    var sortConfig: SortConfig
    var expandedOperators: set<string>

    /** The rows shown, in display order. */
    function Rows(): seq<Submission>
      reads this
    {
      Pipeline(submissions, criteria, columnFilters, sortConfig, timestamp)
    }

    /** The first render: no column filter, no sort key, every operator group expanded. */
    constructor (props: Criteria, parse: string -> Option<int>, initial: seq<Submission>)
      ensures criteria == props && timestamp == parse
      ensures submissions == initial && columnFilters == AllFilters && sortConfig == InitialSort
      ensures expandedOperators == OperatorSet(FilterSubmissions(initial, props))
    {
      var rows := Pipeline(initial, props, AllFilters, InitialSort, parse);
      var keys, groups := GroupByOperator(rows);
      PipelineInitial(initial, props, parse);
      GroupKeysSpec(rows);
      criteria := props;
      timestamp := parse;
      submissions := initial;
      columnFilters := AllFilters;
      sortConfig := InitialSort;
      expandedOperators := set k | k in keys;
    }

    /** The grouped rows the table renders, with the keys in display order. */
    method Groups() returns (keys: seq<string>, groups: map<string, seq<Submission>>)
      ensures keys == GroupKeys(Rows())
      ensures forall op :: op in groups <==> op in keys
      ensures forall op :: op in groups ==> groups[op] == RowsOf(Rows(), op)
    {
      keys, groups := GroupByOperator(Rows());
    }

    method UpdateColumnFilter(col: Column, value: string)
      modifies this
      ensures columnFilters == old(columnFilters).With(col, value)
      ensures submissions == old(submissions) && sortConfig == old(sortConfig)
      ensures expandedOperators == old(expandedOperators)
    {
      columnFilters := columnFilters.With(col, value);
    }

    method ClearAllFilters()
      modifies this
      ensures columnFilters == AllFilters
      ensures submissions == old(submissions) && sortConfig == old(sortConfig)
      ensures expandedOperators == old(expandedOperators)
    {
      columnFilters := AllFilters;
    }

    method HandleSort(key: SortKey)
      modifies this
      ensures sortConfig == NextSort(old(sortConfig), key)
      ensures submissions == old(submissions) && columnFilters == old(columnFilters)
      ensures expandedOperators == old(expandedOperators)
    {
      sortConfig := NextSort(sortConfig, key);
    }

    /** Flips the membership of `op` and of nothing else. */
    method ToggleOperator(op: string)
      modifies this
      ensures op in expandedOperators <==> op !in old(expandedOperators)
      ensures forall other :: other != op ==> (other in expandedOperators <==> other in old(expandedOperators))
      ensures submissions == old(submissions) && columnFilters == old(columnFilters)
      ensures sortConfig == old(sortConfig)
    {
      if op in expandedOperators {
        expandedOperators := expandedOperators - {op};
      } else {
        expandedOperators := expandedOperators + {op};
      }
    }

    /** Expands exactly the groups currently shown. */
    method ExpandAllOperators()
      modifies this
      ensures expandedOperators == OperatorSet(Rows())
      ensures submissions == old(submissions) && columnFilters == old(columnFilters)
      ensures sortConfig == old(sortConfig)
    {
      var keys, groups := GroupByOperator(Rows());
      GroupKeysSpec(Rows());
      expandedOperators := set k | k in keys;
    }

    method CollapseAllOperators()
      modifies this
      ensures expandedOperators == {}
      ensures submissions == old(submissions) && columnFilters == old(columnFilters)
      ensures sortConfig == old(sortConfig)
    {
      expandedOperators := {};
    }

    method HandleStatusUpdate(id: string, newStatus: Status, reason: string)
      modifies this
      ensures submissions == ApplyStatusUpdate(old(submissions), id, newStatus, reason)
      ensures columnFilters == old(columnFilters) && sortConfig == old(sortConfig)
      ensures expandedOperators == old(expandedOperators)
    {
      submissions := ApplyStatusUpdate(submissions, id, newStatus, reason);
    }

    method HandleCommentAdd(id: string, comment: string, commentType: string)
      modifies this
      ensures submissions == ApplyCommentAdd(old(submissions), id, comment, commentType)
      ensures columnFilters == old(columnFilters) && sortConfig == old(sortConfig)
      ensures expandedOperators == old(expandedOperators)
    {
      submissions := ApplyCommentAdd(submissions, id, comment, commentType);
    }
  }
}
