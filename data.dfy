/**
 * The submission record and the shared filter/aggregate pipeline of the dashboard:
 * `filterSubmissions` and `calculateStats`.
 */
module Data {
  import opened Optional
  import opened Strings
  import opened Statuses
  import opened Seqs

  /** One trackable workflow task of an operator. `receivedDate` and `comments` are the
      record's optional fields; `daysUnderStatus` is a JavaScript number, kept as an integer. */
  datatype Submission = Submission(
    id: string,
    operator: string,
    category: string,
    reportType: string,
    reportParty: string,
    frequency: string,
    dueDate: string,
    period: string,
    leaseName: string,
    properties: string,
    receivedDate: Option<string>,
    status: Status,
    reviewerApprover: string,
    daysUnderStatus: int,
    comments: Option<string>,
    assetManager: string,
    invManager: string,
    leaseAdmin: string,
    invAssociate: string)

  /** The eleven fields the free-text search looks at, a missing comment read as "". */
  function SearchFields(s: Submission): seq<string> {
    [s.operator, s.category, s.reportType, s.reportParty, s.frequency, s.period,
     s.leaseName, s.properties, s.reviewerApprover, Name(s.status), s.comments.GetOr("")]
  }

  /** The lower-cased, space-joined search text of a submission. */
  function SearchableText(s: Submission): string {
    ToLower(Join(SearchFields(s), " "))
  }

  /** The optional criteria of `filterSubmissions`; a missing one takes its default
      (`""` for the query, `"all"` for the three filters). */
  datatype Criteria = Criteria(
    searchQuery: Option<string>,
    statusFilter: Option<string>,
    reportTypeFilter: Option<string>,
    dateRangeFilter: Option<string>)

  /** The empty criteria object `{}`. */
  const NoCriteria: Criteria := Criteria(None, None, None, None)

  predicate MatchesSearch(s: Submission, searchQuery: string) {
    Trim(searchQuery) == [] || Contains(SearchableText(s), ToLower(searchQuery))
  }

  predicate MatchesStatus(s: Submission, statusFilter: string) {
    statusFilter == "all" || statusFilter == "operators" || Name(s.status) == statusFilter
  }

  predicate MatchesReportType(s: Submission, reportTypeFilter: string) {
    reportTypeFilter == "all" || Slug(s.reportType) == reportTypeFilter
  }

  /** The filter predicate: the three checks combined with AND. The date-range criterion is
      read from the criteria object and then never consulted. */
  predicate Matches(s: Submission, c: Criteria) {
    && MatchesSearch(s, c.searchQuery.GetOr(""))
    && MatchesStatus(s, c.statusFilter.GetOr("all"))
    && MatchesReportType(s, c.reportTypeFilter.GetOr("all"))
  }

  /** `filterSubmissions(submissions, filters)`. */
  function FilterSubmissions(subs: seq<Submission>, c: Criteria): (r: seq<Submission>)
    ensures forall x :: x in r <==> x in subs && Matches(x, c)
  {
    if subs == [] then []
    else (if Matches(subs[0], c) then [subs[0]] else []) + FilterSubmissions(subs[1..], c)
  }

  /** No record is added and the kept ones stay in their order. */
  lemma {:induction false} FilterIsSubsequence(subs: seq<Submission>, c: Criteria)
    ensures IsSubsequence(FilterSubmissions(subs, c), subs)
  {
    if subs != [] {
      FilterIsSubsequence(subs[1..], c);
      var rest := FilterSubmissions(subs[1..], c);
      if Matches(subs[0], c) {
        assert ([subs[0]] + rest)[1..] == rest;
      } else {
        assert [] + rest == rest;
      }
    }
  }

  /** Two criteria that agree on every record select the same records. */
  lemma {:induction false} FilterCongruent(subs: seq<Submission>, c1: Criteria, c2: Criteria)
    requires forall x :: x in subs ==> (Matches(x, c1) <==> Matches(x, c2))
    ensures FilterSubmissions(subs, c1) == FilterSubmissions(subs, c2)
  {
    if subs != [] {
      assert subs[0] in subs;
      assert forall x :: x in subs[1..] ==> x in subs;
      FilterCongruent(subs[1..], c1, c2);
    }
  }

  /** Criteria that every record meets leave the list as it is. */
  lemma {:induction false} FilterAllMatch(subs: seq<Submission>, c: Criteria)
    requires forall x :: x in subs ==> Matches(x, c)
    ensures FilterSubmissions(subs, c) == subs
  {
    if subs != [] {
      assert subs[0] in subs;
      assert forall x :: x in subs[1..] ==> x in subs;
      FilterAllMatch(subs[1..], c);
      assert [subs[0]] + subs[1..] == subs;
    }
  }

  /** With the empty criteria object every default disables its check. */
  lemma FilterNoCriteria(subs: seq<Submission>)
    ensures FilterSubmissions(subs, NoCriteria) == subs
  {
    assert Trim("") == [];
    FilterAllMatch(subs, NoCriteria);
  }

  /** An empty or white-space-only query excludes nothing. */
  lemma BlankQueryExcludesNothing(subs: seq<Submission>, c: Criteria)
    requires IsBlank(c.searchQuery.GetOr(""))
    ensures FilterSubmissions(subs, c) == FilterSubmissions(subs, c.(searchQuery := None))
  {
    TrimEmptyIffBlank(c.searchQuery.GetOr(""));
    assert Trim("") == [];
    FilterCongruent(subs, c, c.(searchQuery := None));
  }

  /** The search outcome depends only on the lower-cased query. */
  lemma SearchDependsOnLowerCasedQuery(subs: seq<Submission>, c: Criteria, q1: string, q2: string)
    requires ToLower(q1) == ToLower(q2)
    ensures FilterSubmissions(subs, c.(searchQuery := Some(q1))) == FilterSubmissions(subs, c.(searchQuery := Some(q2)))
  {
    ToLowerKeepsBlank(q1);
    ToLowerKeepsBlank(q2);
    TrimEmptyIffBlank(q1);
    TrimEmptyIffBlank(q2);
    FilterCongruent(subs, c.(searchQuery := Some(q1)), c.(searchQuery := Some(q2)));
  }

  /** "metro" and "METRO" select the same submissions. */
  lemma SearchCaseInsensitiveExample(subs: seq<Submission>)
    ensures FilterSubmissions(subs, NoCriteria.(searchQuery := Some("metro")))
         == FilterSubmissions(subs, NoCriteria.(searchQuery := Some("METRO")))
  {
    ToLowerSpec("METRO");
    ToLowerSpec("metro");
    assert ToLower("METRO") == "metro";
    assert ToLower("metro") == "metro";
    SearchDependsOnLowerCasedQuery(subs, NoCriteria, "metro", "METRO");
  }

  /** A non-blank query keeps a record exactly when the lower-cased query occurs in the
      record's lower-cased, space-joined search text. */
  lemma SearchMatchIff(s: Submission, q: string)
    requires !IsBlank(q)
    ensures Matches(s, NoCriteria.(searchQuery := Some(q)))
        <==> exists i :: 0 <= i <= |SearchableText(s)| && ToLower(q) <= SearchableText(s)[i..]
  {
    TrimEmptyIffBlank(q);
    ContainsIff(SearchableText(s), ToLower(q));
  }

  /** An absent comment is searched as the empty string. */
  lemma MissingCommentSearchedAsEmpty(s: Submission)
    ensures SearchableText(s.(comments := None)) == SearchableText(s.(comments := Some("")))
  {
  }

  /** A status filter other than the two sentinels keeps only records of that status. */
  lemma StatusFilterExact(subs: seq<Submission>, c: Criteria, f: string)
    requires f != "all" && f != "operators"
    ensures forall x :: x in FilterSubmissions(subs, c.(statusFilter := Some(f))) ==> Name(x.status) == f
  {
  }

  /** A report-type filter other than "all" keeps only records whose slug equals it. */
  lemma ReportTypeFilterExact(subs: seq<Submission>, c: Criteria, f: string)
    requires f != "all"
    ensures forall x :: x in FilterSubmissions(subs, c.(reportTypeFilter := Some(f))) ==> Slug(x.reportType) == f
  {
  }

  /** The date-range criterion never changes the result. */
  lemma DateRangeIgnored(subs: seq<Submission>, c: Criteria, d: Option<string>)
    ensures FilterSubmissions(subs, c.(dateRangeFilter := d)) == FilterSubmissions(subs, c)
  {
    FilterCongruent(subs, c.(dateRangeFilter := d), c);
  }

  /** The report-type slug keeps every character that is neither white space nor a Latin
      capital, so a filter value lacking such a character of the record's report type (an
      ampersand, say) never selects it. */
  lemma SlugFilterNeedsCharacter(s: Submission, f: string, c: char)
    requires c in s.reportType && !IsWhitespace(c) && !('A' <= c <= 'Z')
    requires c !in f && f != "all"
    ensures !MatchesReportType(s, f)
    ensures FilterSubmissions([s], NoCriteria.(reportTypeFilter := Some(f))) == []
  {
    SlugKeeps(s.reportType, c);
  }

  /** The search/report-type/date criteria `calculateStats` accepts; it has no status filter. */
  datatype StatsCriteria = StatsCriteria(
    searchQuery: Option<string>,
    reportTypeFilter: Option<string>,
    dateRangeFilter: Option<string>)

  function AsCriteria(c: StatsCriteria): Criteria {
    Criteria(c.searchQuery, None, c.reportTypeFilter, c.dateRangeFilter)
  }

  /** The summary-card counts. */
  datatype Stats = Stats(
    total: nat,
    approved: nat,
    pending: nat,
    inReview: nat,
    submitted: nat,
    nonCompliant: nat,
    overdue: nat)
  {
    /** The bucket of one status. */
    function Bucket(st: Status): nat {
      match st
      case Approved => approved
      case Pending => pending
      case InReview => inReview
      case Submitted => submitted
      case NonCompliant => nonCompliant
      case Overdue => overdue
    }
  }

  /** `subs.filter(s => s.status === st).length`. */
  function CountStatus(subs: seq<Submission>, st: Status): (n: nat)
    ensures n <= |subs|
  {
    if subs == [] then 0 else (if subs[0].status == st then 1 else 0) + CountStatus(subs[1..], st)
  }

  /** Every record falls in exactly one of the six buckets. */
  lemma {:induction false} StatusCountsSum(subs: seq<Submission>)
    ensures CountStatus(subs, Approved) + CountStatus(subs, Pending) + CountStatus(subs, InReview)
          + CountStatus(subs, Submitted) + CountStatus(subs, NonCompliant) + CountStatus(subs, Overdue) == |subs|
  {
    if subs != [] {
      StatusCountsSum(subs[1..]);
    }
  }

  /** `calculateStats(submissions, filters)`. */
  function CalculateStats(subs: seq<Submission>, c: StatsCriteria): (r: Stats)
    ensures r.total == |FilterSubmissions(subs, AsCriteria(c))|
    ensures r.approved + r.pending + r.inReview + r.submitted + r.nonCompliant + r.overdue == r.total
    ensures forall st: Status :: r.Bucket(st) <= r.total
  {
    var f := FilterSubmissions(subs, AsCriteria(c));
    StatusCountsSum(f);
    var r := Stats(|f|, CountStatus(f, Approved), CountStatus(f, Pending), CountStatus(f, InReview),
                   CountStatus(f, Submitted), CountStatus(f, NonCompliant), CountStatus(f, Overdue));
    assert forall st: Status :: r.Bucket(st) == CountStatus(f, st);
    r
  }

  /** Setting the status filter to a status's name keeps exactly the rows with that status. */
  lemma MatchesWithStatus(x: Submission, base: Criteria, st: Status)
    requires base.statusFilter == None
    ensures Matches(x, base.(statusFilter := Some(Name(st)))) <==> Matches(x, base) && x.status == st
  {
    NameInjective(x.status, st);
    assert Name(st) != "all" && Name(st) != "operators" by {
      assert Name(st)[0] != 'a' || |Name(st)| != 3;
    }
  }

  lemma {:induction false} CountFiltered(subs: seq<Submission>, base: Criteria, st: Status)
    requires base.statusFilter == None
    ensures CountStatus(FilterSubmissions(subs, base), st)
         == |FilterSubmissions(subs, base.(statusFilter := Some(Name(st))))|
  {
    if subs != [] {
      CountFiltered(subs[1..], base, st);
      var rest := FilterSubmissions(subs[1..], base);
      MatchesWithStatus(subs[0], base, st);
      if Matches(subs[0], base) {
        assert ([subs[0]] + rest)[1..] == rest;
      } else {
        assert [] + rest == rest;
      }
    }
  }

  /** Each bucket is the number of rows the same search shows under that status filter. */
  lemma BucketMatchesStatusFilter(subs: seq<Submission>, c: StatsCriteria, st: Status)
    ensures CalculateStats(subs, c).Bucket(st)
         == |FilterSubmissions(subs, AsCriteria(c).(statusFilter := Some(Name(st))))|
  {
    CountFiltered(subs, AsCriteria(c), st);
  }
}
