/**
 * The job store and its queries: insert-if-absent keyed on `job_link`, the
 * audit-log append, and the filtered, ordered, paginated listing and count.
 * The database is the class `JobStore` over two in-memory tables; a query is
 * a filter, a sort and a slice of the `jobs` table, evaluated as SQLite does.
 */
module Crud {
  import opened Wrappers
  import opened Text
  import opened IsoDate
  import opened Models
  import opened Schemas
  import opened Sorting

  // ---------------------------------------------------------------------------
  // Sort keys: `_order_clause`

  /** The columns of `jobs` a sort key may name. */
  datatype Column = Id | Title | Company | Location | PostedDate | JobLink
                  | ExperienceLevel | JobType | Keywords | CreatedAt

  function ColumnName(c: Column): string {
    match c
    case Id => "id"
    case Title => "title"
    case Company => "company"
    case Location => "location"
    case PostedDate => "posted_date"
    case JobLink => "job_link"
    case ExperienceLevel => "experience_level"
    case JobType => "job_type"
    case Keywords => "keywords"
    case CreatedAt => "created_at"
  }

  /** Every column, in declaration order. */
  const Columns: seq<Column> := [Id, Title, Company, Location, PostedDate, JobLink,
                                 ExperienceLevel, JobType, Keywords, CreatedAt]

  lemma ColumnListed(c: Column)
    ensures c in Columns
  {
  }

  /** No two columns share a name. */
  lemma ColumnNameInjective(a: Column, b: Column)
    requires ColumnName(a) == ColumnName(b)
    ensures a == b
  {
    var n := ColumnName(a);
    assert |n| == |ColumnName(b)| && n[0] == ColumnName(b)[0];
    if |n| == 8 {
      assert n[4] == ColumnName(b)[4];
    }
  }

  /** The first column of `cs` called `name`. */
  function FindColumn(name: string, cs: seq<Column>): Option<Column> {
    if cs == [] then None
    else if ColumnName(cs[0]) == name then Some(cs[0])
    else FindColumn(name, cs[1..])
  }

  lemma {:induction false} FindColumnSound(name: string, cs: seq<Column>)
    ensures FindColumn(name, cs).Some? ==> ColumnName(FindColumn(name, cs).value) == name
    ensures FindColumn(name, cs).None? ==> forall c :: c in cs ==> ColumnName(c) != name
  {
    if cs != [] {
      FindColumnSound(name, cs[1..]);
      if FindColumn(name, cs).None? {
        forall c | c in cs
          ensures ColumnName(c) != name
        {
          if c != cs[0] {
            assert c in cs[1..];
          }
        }
      }
    }
  }

  /** `getattr(Job, name, None)` restricted to columns: the column called `name`, if any. */
  function ColumnNamed(name: string): Option<Column> {
    FindColumn(name, Columns)
  }

  /** A name resolves exactly when some column has it, and then to that column. */
  lemma ColumnNamedSound(name: string)
    ensures ColumnNamed(name).Some? ==> ColumnName(ColumnNamed(name).value) == name
    ensures ColumnNamed(name).None? ==> forall c: Column :: ColumnName(c) != name
  {
    FindColumnSound(name, Columns);
    forall c: Column
      ensures c in Columns
    {
      ColumnListed(c);
    }
  }

  /** Looking a column up by its own name finds that column. */
  lemma ColumnNamedOfName(c: Column)
    ensures ColumnNamed(ColumnName(c)) == Some(c)
  {
    ColumnNamedSound(ColumnName(c));
    if ColumnNamed(ColumnName(c)).Some? {
      ColumnNameInjective(ColumnNamed(ColumnName(c)).value, c);
    }
  }

  datatype Order = Order(column: Column, descending: bool)

  /** `desc(Job.created_at)`. */
  const DefaultOrder := Order(CreatedAt, true)

  predicate IsSign(c: char) {
    c == '+' || c == '-'
  }

  /** `s.lstrip("+-")`: the suffix left after every leading sign. */
  function StripSigns(s: string): (r: string)
    ensures |r| <= |s| && r == s[|s| - |r|..]
    ensures r == [] || !IsSign(r[0])
    ensures forall k :: 0 <= k < |s| - |r| ==> IsSign(s[k])
  {
    if s != [] && IsSign(s[0]) then StripSigns(s[1..]) else s
  }

  /**
   * `_order_clause`: no key, an empty key or a key naming no column gives
   * `created_at` descending; otherwise the column named by the key without its
   * leading signs, descending iff the key starts with `-`.
   */
  function OrderClause(orderBy: Option<string>): Order {
    if !Truthy(orderBy) then DefaultOrder
    else
      var key := orderBy.value;
      match ColumnNamed(StripSigns(key))
      case Some(c) => Order(c, key[0] == '-')
      case None => DefaultOrder
  }

  /**
   * The three outcomes of `_order_clause`: no usable key and an unknown
   * column both give the default; a known column is sorted on, descending
   * iff the key's first character is `-`.
   */
  lemma OrderClauseCases(orderBy: Option<string>)
    ensures !Truthy(orderBy) ==> OrderClause(orderBy) == DefaultOrder
    ensures Truthy(orderBy) && (forall c: Column :: ColumnName(c) != StripSigns(orderBy.value)) ==>
      OrderClause(orderBy) == DefaultOrder
    ensures Truthy(orderBy) && ColumnNamed(StripSigns(orderBy.value)).Some? ==>
      ColumnName(OrderClause(orderBy).column) == StripSigns(orderBy.value)
      && (OrderClause(orderBy).descending <==> orderBy.value[0] == '-')
  {
    if Truthy(orderBy) {
      var name := StripSigns(orderBy.value);
      ColumnNamedSound(name);
      if ColumnNamed(name).Some? {
        ColumnNamedOfName(ColumnNamed(name).value);
      }
    }
  }

  /** Any run of signs before a column name: the first sign alone decides the direction. */
  lemma {:induction false} OrderClauseOfSignedColumn(signs: string, c: Column)
    requires forall k :: 0 <= k < |signs| ==> IsSign(signs[k])
    ensures OrderClause(Some(signs + ColumnName(c))) == Order(c, signs != [] && signs[0] == '-')
  {
    SignedNameStrips(signs, c);
    ColumnNamedOfName(c);
  }

  /** Stripping the signs off a signed column name leaves the name. */
  lemma SignedNameStrips(signs: string, c: Column)
    requires forall k :: 0 <= k < |signs| ==> IsSign(signs[k])
    ensures var key := signs + ColumnName(c);
      && StripSigns(key) == ColumnName(c)
      && Truthy(Some(key)) && (key[0] == '-' <==> signs != [] && signs[0] == '-')
  {
    var name := ColumnName(c);
    ColumnNameStartsWithLetter(c);
    StripSignsPrefix(signs, name);
    assert (signs + name)[0] == if signs == [] then name[0] else signs[0];
  }

  lemma ColumnNameStartsWithLetter(c: Column)
    ensures ColumnName(c) != [] && 'a' <= ColumnName(c)[0] <= 'z'
  {
  }

  lemma {:induction false} StripSignsPrefix(signs: string, name: string)
    requires forall k :: 0 <= k < |signs| ==> IsSign(signs[k])
    requires name != [] && !IsSign(name[0])
    ensures StripSigns(signs + name) == name
  {
    if signs != [] {
      assert (signs + name)[1..] == signs[1..] + name;
      StripSignsPrefix(signs[1..], name);
    } else {
      assert signs + name == name;
    }
  }

  // ---------------------------------------------------------------------------
  // Comparing rows: SQLite orders NULL before every value, text by code point.

  /** Lexicographic order on strings (code points, shorter prefix first). */
  predicate LexLeq(a: string, b: string) {
    a == [] || (b != [] && (a[0] < b[0] || (a[0] == b[0] && LexLeq(a[1..], b[1..]))))
  }

  lemma {:induction false} LexLeqTotal(a: string, b: string)
    ensures LexLeq(a, b) || LexLeq(b, a)
  {
    if a != [] && b != [] && a[0] == b[0] {
      LexLeqTotal(a[1..], b[1..]);
    }
  }

  lemma {:induction false} LexLeqTransitive(a: string, b: string, c: string)
    requires LexLeq(a, b) && LexLeq(b, c)
    ensures LexLeq(a, c)
  {
    if a != [] && b != [] && c != [] && a[0] == b[0] && b[0] == c[0] {
      LexLeqTransitive(a[1..], b[1..], c[1..]);
    }
  }

  /** The value of one column of a row, as SQL compares it. */
  datatype Key = IntKey(i: int) | TextKey(t: Option<string>) | DateKey(d: Option<Date>)

  function KeyOf(c: Column, j: Job): Key {
    match c
    case Id => IntKey(j.id)
    case Title => TextKey(Some(j.title))
    case Company => TextKey(j.company)
    case Location => TextKey(j.location)
    case PostedDate => DateKey(j.postedDate)
    case JobLink => TextKey(Some(j.jobLink))
    case ExperienceLevel => TextKey(j.experienceLevel)
    case JobType => TextKey(j.jobType)
    case Keywords => TextKey(j.keywords)
    case CreatedAt => IntKey(j.createdAt)
  }

  function KindRank(k: Key): int {
    match k
    case IntKey(_) => 0
    case TextKey(_) => 1
    case DateKey(_) => 2
  }

  predicate KeyLeq(a: Key, b: Key) {
    match (a, b)
    case (IntKey(x), IntKey(y)) => x <= y
    case (TextKey(x), TextKey(y)) => x.None? || (y.Some? && LexLeq(x.value, y.value))
    case (DateKey(x), DateKey(y)) => x.None? || (y.Some? && DateLeq(x.value, y.value))
    case _ => KindRank(a) <= KindRank(b)
  }

  lemma KeyLeqTotal(a: Key, b: Key)
    ensures KeyLeq(a, b) || KeyLeq(b, a)
  {
    if a.TextKey? && b.TextKey? && a.t.Some? && b.t.Some? {
      LexLeqTotal(a.t.value, b.t.value);
    }
  }

  lemma KeyLeqTransitive(a: Key, b: Key, c: Key)
    requires KeyLeq(a, b) && KeyLeq(b, c)
    ensures KeyLeq(a, c)
  {
    if a.TextKey? && b.TextKey? && c.TextKey? && a.t.Some? && b.t.Some? && c.t.Some? {
      LexLeqTransitive(a.t.value, b.t.value, c.t.value);
    }
  }

  /** `a` may come before `b` under the ORDER BY clause `o`. */
  predicate JobLeq(o: Order, a: Job, b: Job) {
    if o.descending then KeyLeq(KeyOf(o.column, b), KeyOf(o.column, a))
    else KeyLeq(KeyOf(o.column, a), KeyOf(o.column, b))
  }

  function JobOrder(o: Order): (Job, Job) -> bool {
    (a: Job, b: Job) => JobLeq(o, a, b)
  }

  /** Every ORDER BY clause is a total preorder on rows, so sorting by it is well defined. */
  lemma JobOrderTotal(o: Order)
    ensures TotalPreorder(JobOrder(o))
  {
    var leq := JobOrder(o);
    forall a: Job, b: Job
      ensures leq(a, b) || leq(b, a)
    {
      KeyLeqTotal(KeyOf(o.column, a), KeyOf(o.column, b));
    }
    forall a: Job, b: Job, c: Job | leq(a, b) && leq(b, c)
      ensures leq(a, c)
    {
      if o.descending {
        KeyLeqTransitive(KeyOf(o.column, c), KeyOf(o.column, b), KeyOf(o.column, a));
      } else {
        KeyLeqTransitive(KeyOf(o.column, a), KeyOf(o.column, b), KeyOf(o.column, c));
      }
    }
  }

  // ---------------------------------------------------------------------------
  // Filters: the WHERE clause shared by `list_jobs` and `count_jobs`.

  /** `title ILIKE '%kw%' OR keywords ILIKE '%kw%'` (a NULL `keywords` never matches). */
  predicate KeywordMatches(j: Job, keyword: string) {
    || Contains(Lower(j.title), Lower(keyword))
    || (j.keywords.Some? && Contains(Lower(j.keywords.value), Lower(keyword)))
  }

  /** A row passes every filter that is set; a date bound excludes rows without `posted_date`. */
  predicate Matches(j: Job, f: JobFilter) {
    && (Truthy(f.keyword) ==> KeywordMatches(j, f.keyword.value))
    && (Truthy(f.company) ==> j.company == f.company)
    && (Truthy(f.location) ==> j.location == f.location)
    && (f.dateFrom.Some? ==> j.postedDate.Some? && DateLeq(f.dateFrom.value, j.postedDate.value))
    && (f.dateTo.Some? ==> j.postedDate.Some? && DateLeq(j.postedDate.value, f.dateTo.value))
  }

  /** The rows passing the filters, in store order. */
  function Select(jobs: seq<Job>, f: JobFilter): seq<Job> {
    if jobs == [] then []
    else (if Matches(jobs[0], f) then [jobs[0]] else []) + Select(jobs[1..], f)
  }

  /** A row is selected exactly when it is stored and passes the filters. */
  lemma {:induction false} SelectSound(jobs: seq<Job>, f: JobFilter)
    ensures forall j :: j in Select(jobs, f) <==> j in jobs && Matches(j, f)
  {
    if jobs != [] {
      SelectSound(jobs[1..], f);
      assert jobs == [jobs[0]] + jobs[1..];
    }
  }

  /** `count_jobs`: how many rows pass the filters. */
  function CountJobs(jobs: seq<Job>, f: JobFilter): (n: nat)
    ensures n <= |jobs|
  {
    if jobs == [] then 0
    else (if Matches(jobs[0], f) then 1 else 0) + CountJobs(jobs[1..], f)
  }

  lemma {:induction false} SelectCount(jobs: seq<Job>, f: JobFilter)
    ensures |Select(jobs, f)| == CountJobs(jobs, f)
  {
    if jobs != [] {
      SelectCount(jobs[1..], f);
    }
  }

  // ---------------------------------------------------------------------------
  // OFFSET / LIMIT, as SQLite applies them: a negative offset counts as 0,
  // a negative limit means no limit.

  function Skipped(n: nat, offset: int): (k: nat)
    ensures k <= n
  {
    if offset <= 0 then 0 else if offset < n then offset else n
  }

  function WindowLength(n: nat, offset: int, limit: int): nat {
    var rest := n - Skipped(n, offset);
    if 0 <= limit < rest then limit else rest
  }

  function Window<T>(s: seq<T>, offset: int, limit: int): (r: seq<T>)
    ensures |r| == WindowLength(|s|, offset, limit)
    ensures forall i :: 0 <= i < |r| ==> r[i] == s[Skipped(|s|, offset) + i]
  {
    var rest := s[Skipped(|s|, offset)..];
    if 0 <= limit < |rest| then rest[..limit] else rest
  }

  // ---------------------------------------------------------------------------
  // `list_jobs` and `list_alert_logs`

  /** The matching rows in the order of the parsed sort key, before OFFSET and LIMIT. */
  function OrderedMatches(jobs: seq<Job>, f: JobFilter): seq<Job> {
    SortBy(Select(jobs, f), JobOrder(OrderClause(f.orderBy)))
  }

  /** One ordered row per matching row. */
  lemma OrderedMatchesLength(jobs: seq<Job>, f: JobFilter)
    ensures |OrderedMatches(jobs, f)| == CountJobs(jobs, f)
  {
    SelectCount(jobs, f);
  }

  /**
   * The ordered matches are exactly the matching rows (as a multiset), one
   * per match, sorted by the parsed sort key.
   */
  lemma OrderedMatchesSound(jobs: seq<Job>, f: JobFilter)
    ensures var r := OrderedMatches(jobs, f);
      && multiset(r) == multiset(Select(jobs, f))
      && (forall k :: 0 <= k < |r| ==> r[k] in jobs && Matches(r[k], f))
      && |r| == CountJobs(jobs, f)
      && SortedBy(r, JobOrder(OrderClause(f.orderBy)))
  {
    var leq := JobOrder(OrderClause(f.orderBy));
    var r := SortBy(Select(jobs, f), leq);
    SelectCount(jobs, f);
    JobOrderTotal(OrderClause(f.orderBy));
    SortBySorted(Select(jobs, f), leq);
    SortByPerm(Select(jobs, f), leq);
    SelectSound(jobs, f);
    assert forall k :: 0 <= k < |r| ==> r[k] in multiset(Select(jobs, f));
  }

  /** `list_jobs`: filter, order by the parsed sort key, then offset and limit. */
  function ListJobs(jobs: seq<Job>, f: JobFilter): (r: seq<Job>)
    ensures |r| == WindowLength(CountJobs(jobs, f), f.offset, f.limit)
  {
    OrderedMatchesLength(jobs, f);
    Window(OrderedMatches(jobs, f), f.offset, f.limit)
  }

  /** Every listed row is a stored row passing the filters, and the page is in sort-key order. */
  lemma ListJobsSound(jobs: seq<Job>, f: JobFilter)
    ensures var r := ListJobs(jobs, f);
      && (forall k :: 0 <= k < |r| ==> r[k] in jobs && Matches(r[k], f))
      && SortedBy(r, JobOrder(OrderClause(f.orderBy)))
  {
    var om := OrderedMatches(jobs, f);
    var r := ListJobs(jobs, f);
    OrderedMatchesSound(jobs, f);
    forall i, j | 0 <= i < j < |r|
      ensures JobOrder(OrderClause(f.orderBy))(r[i], r[j])
    {
      assert r[i] == om[Skipped(|om|, f.offset) + i] && r[j] == om[Skipped(|om|, f.offset) + j];
    }
  }

  /** `|list_jobs| = min(limit, max(0, count - offset))` for the ranges the router passes. */
  lemma ListJobsLength(jobs: seq<Job>, f: JobFilter)
    requires f.limit >= 0 && f.offset >= 0
    ensures |ListJobs(jobs, f)| == Min(f.limit, Max(0, CountJobs(jobs, f) - f.offset))
  {
    var n := CountJobs(jobs, f);
    assert |ListJobs(jobs, f)| == WindowLength(n, f.offset, f.limit);
    WindowLengthOfRanges(n, f.offset, f.limit);
  }

  lemma WindowLengthOfRanges(n: nat, offset: int, limit: int)
    requires limit >= 0 && offset >= 0
    ensures WindowLength(n, offset, limit) == Min(limit, Max(0, n - offset))
  {
  }

  function Min(a: int, b: int): int { if a <= b then a else b }
  function Max(a: int, b: int): int { if a >= b then a else b }

  /** Two filters with the same five criteria. */
  predicate SameCriteria(f: JobFilter, g: JobFilter) {
    f.keyword == g.keyword && f.company == g.company && f.location == g.location
    && f.dateFrom == g.dateFrom && f.dateTo == g.dateTo
  }

  lemma {:induction false} SelectSameCriteria(jobs: seq<Job>, f: JobFilter, g: JobFilter)
    requires SameCriteria(f, g)
    ensures Select(jobs, f) == Select(jobs, g)
  {
    if jobs != [] {
      SelectSameCriteria(jobs[1..], f, g);
    }
  }

  /** Offset and limit do not change which rows match or their order. */
  lemma OrderedMatchesOfPage(jobs: seq<Job>, f: JobFilter, offset: int, limit: int)
    ensures OrderedMatches(jobs, f.(offset := offset, limit := limit)) == OrderedMatches(jobs, f)
  {
    SelectSameCriteria(jobs, f, f.(offset := offset, limit := limit));
  }

  /**
   * Offset K skips exactly the first K rows of the otherwise identical,
   * unpaginated listing (limit -1 is SQLite's "no limit").
   */
  lemma ListJobsOffset(jobs: seq<Job>, f: JobFilter)
    requires f.offset >= 0 && f.limit >= 0
    ensures var all := ListJobs(jobs, f.(offset := 0, limit := -1));
      var page := ListJobs(jobs, f);
      |all| == CountJobs(jobs, f) &&
      forall i :: 0 <= i < |page| ==> f.offset + i < |all| && page[i] == all[f.offset + i]
  {
    var om := OrderedMatches(jobs, f);
    OrderedMatchesLength(jobs, f);
    UnpagedListing(jobs, f);
    var page := ListJobs(jobs, f);
    assert page == Window(om, f.offset, f.limit);
    WindowFromOffset(om, f.offset, f.limit);
  }

  /** Offset 0 with no limit lists every ordered match. */
  lemma UnpagedListing(jobs: seq<Job>, f: JobFilter)
    ensures ListJobs(jobs, f.(offset := 0, limit := -1)) == OrderedMatches(jobs, f)
  {
    OrderedMatchesOfPage(jobs, f, 0, -1);
    WindowWhole(OrderedMatches(jobs, f));
  }

  /** Offset 0 without a limit is the whole sequence. */
  lemma WindowWhole<T>(s: seq<T>)
    ensures Window(s, 0, -1) == s
  {
    assert Skipped(|s|, 0) == 0;
    assert s[0..] == s;
  }

  /** A non-negative offset K starts the window at the K-th element. */
  lemma WindowFromOffset<T>(s: seq<T>, offset: int, limit: int)
    requires offset >= 0
    ensures forall i :: 0 <= i < |Window(s, offset, limit)| ==>
      offset + i < |s| && Window(s, offset, limit)[i] == s[offset + i]
  {
    var w := Window(s, offset, limit);
    assert Skipped(|s|, offset) == if offset < |s| then offset else |s|;
    forall i | 0 <= i < |w|
      ensures offset + i < |s| && w[i] == s[offset + i]
    {
      assert w[i] == s[Skipped(|s|, offset) + i];
    }
  }

  /** A sort key naming no column lists exactly as no sort key: newest first. */
  lemma UnknownSortKeyFallsBack(jobs: seq<Job>, f: JobFilter)
    requires Truthy(f.orderBy) && ColumnNamed(StripSigns(f.orderBy.value)).None?
    ensures ListJobs(jobs, f) == ListJobs(jobs, f.(orderBy := None))
  {
    var g := f.(orderBy := None);
    SelectSameCriteria(jobs, f, g);
    assert OrderedMatches(jobs, f) == OrderedMatches(jobs, g);
  }

  function NewestFirst(): (AlertLog, AlertLog) -> bool {
    (a: AlertLog, b: AlertLog) => a.createdAt >= b.createdAt
  }

  /** The page size `list_alert_logs` uses when none is given. */
  const AlertLogsDefaultLimit := 100

  /** Every alert log, newest first. */
  function LogsNewestFirst(logs: seq<AlertLog>): (r: seq<AlertLog>)
    ensures multiset(r) == multiset(logs)
    ensures |r| == |logs|
    ensures forall i, j :: 0 <= i < j < |r| ==> r[i].createdAt >= r[j].createdAt
  {
    var r := SortBy(logs, NewestFirst());
    SortBySorted(logs, NewestFirst());
    SortByPerm(logs, NewestFirst());
    assert forall i, j :: 0 <= i < j < |r| ==> NewestFirst()(r[i], r[j]);
    r
  }

  /**
   * `list_alert_logs`: newest first, then offset and limit: the page is the
   * window of the newest-first listing that starts after `offset` rows.
   */
  function ListAlertLogs(logs: seq<AlertLog>, limit: int, offset: int): (r: seq<AlertLog>)
    ensures |r| == WindowLength(|logs|, offset, limit)
    ensures r == Window(LogsNewestFirst(logs), offset, limit)
    ensures forall k :: 0 <= k < |r| ==> r[k] in logs
    ensures forall i, j :: 0 <= i < j < |r| ==> r[i].createdAt >= r[j].createdAt
  {
    var sorted := LogsNewestFirst(logs);
    var r := Window(sorted, offset, limit);
    var skip := Skipped(|sorted|, offset);
    assert forall k :: 0 <= k < |r| ==> r[k] == sorted[skip + k] && sorted[skip + k] in multiset(logs);
    assert forall i, j :: 0 <= i < j < |r| ==> r[i] == sorted[skip + i] && r[j] == sorted[skip + j];
    r
  }

  /** Offset 0 without a limit lists every log, newest first. */
  lemma UnpagedAlertLogs(logs: seq<AlertLog>)
    ensures ListAlertLogs(logs, -1, 0) == LogsNewestFirst(logs)
    ensures multiset(ListAlertLogs(logs, -1, 0)) == multiset(logs)
  {
    WindowWhole(LogsNewestFirst(logs));
  }

  /**
   * Offset K skips exactly the first K rows of the unpaginated newest-first
   * listing.
   */
  lemma ListAlertLogsOffset(logs: seq<AlertLog>, limit: int, offset: int)
    requires offset >= 0
    ensures forall i :: 0 <= i < |ListAlertLogs(logs, limit, offset)| ==>
      offset + i < |ListAlertLogs(logs, -1, 0)|
      && ListAlertLogs(logs, limit, offset)[i] == ListAlertLogs(logs, -1, 0)[offset + i]
  {
    var sorted, page := LogsNewestFirst(logs), ListAlertLogs(logs, limit, offset);
    UnpagedAlertLogs(logs);
    WindowFromOffset(sorted, offset, limit);
    forall i | 0 <= i < |page|
      ensures offset + i < |sorted| && page[i] == sorted[offset + i]
    {
      assert page[i] == Window(sorted, offset, limit)[i];
    }
  }

  /** The rows in the order they were written: each strictly newer than the one before. */
  predicate WrittenInOrder(logs: seq<AlertLog>) {
    forall i, j :: 0 <= i < j < |logs| ==> logs[i].createdAt < logs[j].createdAt
  }

  function Reversed<T>(s: seq<T>): (r: seq<T>)
    ensures |r| == |s|
    ensures forall k :: 0 <= k < |s| ==> r[k] == s[|s| - 1 - k]
  {
    if s == [] then [] else Reversed(s[1..]) + [s[0]]
  }

  /** A row older than every listed row goes to the end of the newest-first listing. */
  lemma {:induction false} InsertOldest(x: AlertLog, r: seq<AlertLog>)
    requires forall k :: 0 <= k < |r| ==> x.createdAt < r[k].createdAt
    ensures Insert(x, r, NewestFirst()) == r + [x]
  {
    if r != [] {
      assert !NewestFirst()(x, r[0]);
      InsertOldest(x, r[1..]);
      assert [r[0]] + (r[1..] + [x]) == r + [x];
    }
  }

  /** Rows written one after another are listed newest first, which is the reverse of the writing order. */
  lemma {:induction false} NewestFirstReversesWrites(logs: seq<AlertLog>)
    requires WrittenInOrder(logs)
    ensures LogsNewestFirst(logs) == Reversed(logs)
  {
    if logs != [] {
      var rest := logs[1..];
      assert WrittenInOrder(rest) by {
        forall i, j | 0 <= i < j < |rest|
          ensures rest[i].createdAt < rest[j].createdAt
        {
          assert rest[i] == logs[i + 1] && rest[j] == logs[j + 1];
        }
      }
      NewestFirstReversesWrites(rest);
      var rr := Reversed(rest);
      forall k | 0 <= k < |rr|
        ensures logs[0].createdAt < rr[k].createdAt
      {
        assert rr[k] == logs[|rest| - k];
      }
      InsertOldest(logs[0], rr);
    }
  }

  // ---------------------------------------------------------------------------
  // Inserts

  /** The row stores exactly the eight fields of the request. */
  predicate Stores(j: Job, c: JobCreate) {
    && j.title == c.title && j.company == c.company && j.location == c.location
    && j.postedDate == c.postedDate && j.jobLink == c.jobLink
    && j.experienceLevel == c.experienceLevel && j.jobType == c.jobType && j.keywords == c.keywords
  }

  predicate HasLink(jobs: seq<Job>, link: string) {
    exists k :: 0 <= k < |jobs| && jobs[k].jobLink == link
  }

  /** The `select ... where job_link == link` lookup: the first stored row with that link. */
  function FindByLink(jobs: seq<Job>, link: string): Option<Job> {
    if jobs == [] then None
    else if jobs[0].jobLink == link then Some(jobs[0])
    else FindByLink(jobs[1..], link)
  }

  /** The lookup finds a row exactly when some stored row has the link, and the row it finds has it. */
  lemma {:induction false} FindByLinkSound(jobs: seq<Job>, link: string)
    ensures FindByLink(jobs, link).Some? <==> HasLink(jobs, link)
    ensures FindByLink(jobs, link).Some? ==>
      FindByLink(jobs, link).value in jobs && FindByLink(jobs, link).value.jobLink == link
  {
    if jobs != [] && jobs[0].jobLink != link {
      FindByLinkSound(jobs[1..], link);
      if HasLink(jobs, link) {
        var k :| 0 <= k < |jobs| && jobs[k].jobLink == link;
        assert jobs[1..][k - 1] == jobs[k];
      }
      if HasLink(jobs[1..], link) {
        var k :| 0 <= k < |jobs[1..]| && jobs[1..][k].jobLink == link;
        assert jobs[k + 1] == jobs[1..][k];
      }
    } else if jobs != [] {
      assert jobs[0].jobLink == link;
    }
  }

  /** SQLite's rowid for a new row: one more than the largest id so far. */
  function NextJobId(jobs: seq<Job>): int {
    if jobs == [] then 1
    else
      var rest := NextJobId(jobs[1..]);
      if jobs[0].id + 1 > rest then jobs[0].id + 1 else rest
  }

  /** The new rowid is positive and above every stored id. */
  lemma {:induction false} NextJobIdAbove(jobs: seq<Job>)
    ensures NextJobId(jobs) >= 1
    ensures forall k :: 0 <= k < |jobs| ==> jobs[k].id < NextJobId(jobs)
  {
    if jobs != [] {
      NextJobIdAbove(jobs[1..]);
      assert forall k :: 1 <= k < |jobs| ==> jobs[k] == jobs[1..][k - 1];
    }
  }

  function NextLogId(logs: seq<AlertLog>): (id: int)
    ensures id >= 1
    ensures forall k :: 0 <= k < |logs| ==> logs[k].id < id
  {
    if logs == [] then 1
    else
      var rest := NextLogId(logs[1..]);
      assert forall k :: 1 <= k < |logs| ==> logs[k] == logs[1..][k - 1];
      if logs[0].id + 1 > rest then logs[0].id + 1 else rest
  }

  /**
   * `create_job_if_not_exists` on the `jobs` table: None when the link is
   * already stored, else the new row, holding the request's fields, a fresh
   * id and `created_at = now`.
   */
  function InsertIfAbsent(jobs: seq<Job>, c: JobCreate, now: int): Option<Job>
  {
    if FindByLink(jobs, c.jobLink).Some? then None
    else Some(Job(NextJobId(jobs), c.title, c.company, c.location, c.postedDate, c.jobLink,
                  c.experienceLevel, c.jobType, c.keywords, now))
  }

  /**
   * Nothing is inserted exactly when the link is already stored; a new row
   * holds the request's fields, `created_at = now` and an id above every stored one.
   */
  lemma InsertIfAbsentSound(jobs: seq<Job>, c: JobCreate, now: int)
    ensures var r := InsertIfAbsent(jobs, c, now);
      && (r.None? <==> HasLink(jobs, c.jobLink))
      && (r.Some? ==> Stores(r.value, c) && r.value.createdAt == now)
      && (r.Some? ==> forall k :: 0 <= k < |jobs| ==> jobs[k].id < r.value.id)
  {
    FindByLinkSound(jobs, c.jobLink);
    NextJobIdAbove(jobs);
  }

  /** An insert keeps links and ids unique. */
  lemma InsertKeepsUnique(jobs: seq<Job>, c: JobCreate, now: int)
    requires LinksUnique(jobs) && JobIdsUnique(jobs)
    ensures LinksUnique(jobs + InsertIfAbsent(jobs, c, now).ToSeq())
    ensures JobIdsUnique(jobs + InsertIfAbsent(jobs, c, now).ToSeq())
  {
    var r := InsertIfAbsent(jobs, c, now);
    InsertIfAbsentSound(jobs, c, now);
    if r.Some? {
      var s := jobs + [r.value];
      forall i, j | 0 <= i < j < |s|
        ensures s[i].jobLink != s[j].jobLink && s[i].id != s[j].id
      {
        if j == |jobs| {
          assert s[i] == jobs[i];
        }
      }
    }
  }

  /**
   * Idempotence: a second insert of the same link, at any later time, adds
   * nothing, and after either call the store holds exactly one row with it.
   */
  lemma InsertIdempotent(jobs: seq<Job>, c: JobCreate, now: int, later: int)
    requires LinksUnique(jobs) && JobIdsUnique(jobs)
    ensures var after := jobs + InsertIfAbsent(jobs, c, now).ToSeq();
      && InsertIfAbsent(after, c, later).None?
      && |set k | 0 <= k < |after| && after[k].jobLink == c.jobLink| == 1
  {
    var first := InsertIfAbsent(jobs, c, now);
    var after := jobs + first.ToSeq();
    InsertKeepsUnique(jobs, c, now);
    InsertIfAbsentSound(jobs, c, now);
    InsertIfAbsentSound(after, c, later);
    var m: nat :| m < |after| && after[m].jobLink == c.jobLink by {
      if first.None? {
        var k :| 0 <= k < |jobs| && jobs[k].jobLink == c.jobLink;
        assert after[k].jobLink == c.jobLink;
      } else {
        assert after[|jobs|].jobLink == c.jobLink;
      }
    }
    assert (set k | 0 <= k < |after| && after[k].jobLink == c.jobLink) == {m};
  }

  // ---------------------------------------------------------------------------
  // The store

  /**
   * The database: the `jobs` and `alert_logs` tables, with their constraints
   * as invariant. `created_at` is `datetime.utcnow()` read when a row is
   * written, and every write is committed on its own, so `clock` is the
   * instant the next row will carry: each write stamps it and moves it on.
   */
  class JobStore {
    var jobs: seq<Job>
    var logs: seq<AlertLog>
    var clock: int

    ghost predicate Valid()
      reads this
    {
      StoreInvariant(jobs, logs)
    }

    constructor (start: int)
      ensures Valid() && jobs == [] && logs == [] && clock == start
    {
      jobs := [];
      logs := [];
      clock := start;
    }

    /**
     * `create_job_if_not_exists`: look the link up, insert only when absent;
     * a new row is stamped with the current instant, which then moves on.
     */
    method CreateJobIfNotExists(job: JobCreate) returns (created: Option<Job>)
      requires Valid()
      modifies this
      ensures Valid()
      ensures created == InsertIfAbsent(old(jobs), job, old(clock))
      ensures jobs == old(jobs) + created.ToSeq()
      ensures clock == old(clock) + |created.ToSeq()|
      ensures logs == old(logs)
    {
      created := InsertIfAbsent(jobs, job, clock);
      InsertKeepsUnique(jobs, job, clock);
      if created.Some? {
        LogsReferenceAppended(logs, jobs, [created.value]);
        jobs := jobs + [created.value];
        clock := clock + 1;
      }
    }

    /**
     * `create_alert_log`: append one row with the given job, channel, status
     * and message, stamped with the current instant, which then moves on.
     */
    method CreateAlertLog(jobId: int, channel: string, status: string, message: Option<string>)
      returns (log: AlertLog)
      requires Valid() && HasJobId(jobs, jobId)
      modifies this
      ensures Valid() && jobs == old(jobs)
      ensures log.jobId == jobId && log.channel == channel && log.status == status
      ensures log.message == message && log.createdAt == old(clock)
      ensures forall k :: 0 <= k < |old(logs)| ==> old(logs)[k].id < log.id
      ensures logs == old(logs) + [log] && clock == old(clock) + 1
    {
      log := AlertLog(NextLogId(logs), jobId, channel, status, message, clock);
      logs := logs + [log];
      clock := clock + 1;
    }

    /** Deleting a job (no route does) takes its alert logs with it. */
    method DeleteJob(id: int)
      requires Valid()
      modifies this
      ensures Valid()
      ensures jobs == JobsWithout(old(jobs), id) && logs == LogsWithout(old(logs), id)
      ensures clock == old(clock)
    {
      CascadeKeepsInvariant(jobs, logs, id);
      jobs, logs := JobsWithout(jobs, id), LogsWithout(logs, id);
    }
  }
}
