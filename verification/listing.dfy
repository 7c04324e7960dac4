/**
 * The query plan of GET /api/jobs (routes/jobs.js:8-105): the sort column
 * and direction resolved from the request, the WHERE clauses with their
 * positional parameters, and what those clauses select.
 */
module Listing {
  import opened Options
  import opened TextMatch
  import opened Cells
  import opened Jobs
  import opened Ordering
  import opened Pagination

  /** The query string of a listing request; a missing parameter is None. */
  datatype ListQuery = ListQuery(
    page: Option<int>,
    limit: Option<int>,
    sort: Option<string>,
    order: Option<string>,
    search: Option<string>,
    location: Option<string>,
    jobType: Option<string>,
    level: Option<string>,
    status: Option<string>,
    salaryMin: Option<int>,
    salaryMax: Option<int>,
    company: Option<string>)
  {
    function Page(): int { page.GetOr(1) }
    function Limit(): int { limit.GetOr(10) }
  }

  /** The paging parameters are positive whole numbers. */
  predicate PagingOk(q: ListQuery) {
    q.Page() >= 1 && q.Limit() >= 1
  }

  /** A text parameter is present and non-empty, i.e. truthy in JavaScript. */
  predicate Given(o: Option<string>) {
    o.Some? && o.value != ""
  }

  /** The ORDER BY column: the requested one when allow-listed, otherwise created_at. */
  function ResolveSort(sort: string): (k: SortKey)
    ensures sort in SORT_ALLOW_LIST ==> k.Name() == sort
    ensures sort !in SORT_ALLOW_LIST ==> k == ByCreatedAt
  {
    if sort == "updated_at" then ByUpdatedAt
    else if sort == "title" then ByTitle
    else if sort == "salary_min" then BySalaryMin
    else if sort == "salary_max" then BySalaryMax
    else if sort == "company" then ByCompany
    else ByCreatedAt
  }

  /**
   * The ORDER BY direction, inverted as in the source: "asc" in any letter
   * case sorts descending, every other value ascending.
   */
  function ResolveOrder(order: string): (d: Direction)
    ensures d == Desc <==>
      |order| == 3 && order[0] in "aA" && order[1] in "sS" && order[2] in "cC"
  {
    var lowered := Lower(order);
    assert |lowered| == 3 ==> lowered == [lowered[0], lowered[1], lowered[2]];
    if lowered == "asc" then Desc else Asc
  }

  /** With no `order` parameter the listing is sorted ascending. */
  lemma DefaultOrderAscending()
    ensures ResolveOrder("desc") == Asc
  {
  }

  /** The comparison of a WHERE clause. */
  datatype Op = LikeOp | EqOp | LeOp

  /** One WHERE fragment `column op ?`; its value is bound positionally. */
  datatype Clause = Clause(column: Column, op: Op)

  /** One filter of the request, with the value the request gave it. */
  datatype Pred =
    | TitleLike(term: string)
    | LocationLike(term: string)
    | TypeEq(value: string)
    | LevelEq(value: string)
    | StatusEq(value: string)
    | SalaryMinLe(bound: int)
    | SalaryMaxLe(bound: int)
    | CompanyLike(term: string)
  {
    /** The WHERE fragment pushed for this filter. */
    function Fragment(): Clause {
      match this
      case TitleLike(_) => Clause(Title, LikeOp)
      case LocationLike(_) => Clause(Location, LikeOp)
      case TypeEq(_) => Clause(JobType, EqOp)
      case LevelEq(_) => Clause(Level, EqOp)
      case StatusEq(_) => Clause(Status, EqOp)
      case SalaryMinLe(_) => Clause(SalaryMin, LeOp)
      case SalaryMaxLe(_) => Clause(SalaryMax, LeOp)
      case CompanyLike(_) => Clause(Company, LikeOp)
    }

    /** The parameter pushed for this filter; a LIKE term is wrapped in '%'. */
    function Argument(): Cell {
      match this
      case TitleLike(t) => Text("%" + t + "%")
      case LocationLike(t) => Text("%" + t + "%")
      case TypeEq(v) => Text(v)
      case LevelEq(v) => Text(v)
      case StatusEq(v) => Text(v)
      case SalaryMinLe(b) => Num(b)
      case SalaryMaxLe(b) => Num(b)
      case CompanyLike(t) => Text("%" + t + "%")
    }

    /** The filter's place in the fixed order the handler tests them. */
    function Rank(): nat {
      match this
      case TitleLike(_) => 0
      case LocationLike(_) => 1
      case TypeEq(_) => 2
      case LevelEq(_) => 3
      case StatusEq(_) => 4
      case SalaryMinLe(_) => 5
      case SalaryMaxLe(_) => 6
      case CompanyLike(_) => 7
    }
  }

  /** The filter of rank `r` when the request gives it: none or one. */
  function Slot(q: ListQuery, r: nat): (s: seq<Pred>)
    ensures forall p :: p in s ==> p.Rank() == r
    ensures |s| <= 1
  {
    match r
    case 0 => if Given(q.search) then [TitleLike(q.search.value)] else []
    case 1 => if Given(q.location) then [LocationLike(q.location.value)] else []
    case 2 => if Given(q.jobType) then [TypeEq(q.jobType.value)] else []
    case 3 => if Given(q.level) then [LevelEq(q.level.value)] else []
    case 4 => if Given(q.status) then [StatusEq(q.status.value)] else []
    case 5 => if q.salaryMin.Some? then [SalaryMinLe(q.salaryMin.value)] else []
    case 6 => if q.salaryMax.Some? then [SalaryMaxLe(q.salaryMax.value)] else []
    case 7 => if Given(q.company) then [CompanyLike(q.company.value)] else []
    case _ => []
  }

  /** The number of filters a request gives: one per truthy text parameter or present bound. */
  function GivenCount(q: ListQuery): (n: nat)
    ensures n <= 8
  {
    (if Given(q.search) then 1 else 0) + (if Given(q.location) then 1 else 0)
    + (if Given(q.jobType) then 1 else 0) + (if Given(q.level) then 1 else 0)
    + (if Given(q.status) then 1 else 0) + (if q.salaryMin.Some? then 1 else 0)
    + (if q.salaryMax.Some? then 1 else 0) + (if Given(q.company) then 1 else 0)
  }

  /** The filters a request asks for, in the order the handler pushes them. */
  function Requested(q: ListQuery): seq<Pred> {
    Slot(q, 0) + Slot(q, 1) + Slot(q, 2) + Slot(q, 3) + Slot(q, 4) + Slot(q, 5) + Slot(q, 6) + Slot(q, 7)
  }

  function Clauses(ps: seq<Pred>): seq<Clause> {
    seq(|ps|, i requires 0 <= i < |ps| => ps[i].Fragment())
  }

  function Params(ps: seq<Pred>): seq<Cell> {
    seq(|ps|, i requires 0 <= i < |ps| => ps[i].Argument())
  }

  /** SQLite's evaluation of one fragment with its bound parameter against a row. */
  predicate Holds(j: Job, c: Clause, param: Cell) {
    match c.op
    case LikeOp => SqlLike(j.Get(c.column), param)
    case EqOp => SqlEq(j.Get(c.column), param)
    case LeOp => SqlLe(j.Get(c.column), param)
  }

  /** A row satisfies `WHERE c1 AND c2 AND ...` bound to `params`; no clause selects every row. */
  predicate RowMatches(j: Job, clauses: seq<Clause>, params: seq<Cell>)
    requires |clauses| == |params|
  {
    forall i :: 0 <= i < |clauses| ==> Holds(j, clauses[i], params[i])
  }

  /** Filters in strictly increasing rank: each kind at most once, in the handler's order. */
  predicate RanksIncrease(fs: seq<Pred>) {
    forall i, j :: 0 <= i < j < |fs| ==> fs[i].Rank() < fs[j].Rank()
  }

  lemma AppendSlot(fs: seq<Pred>, q: ListQuery, r: nat)
    requires RanksIncrease(fs) && forall p :: p in fs ==> p.Rank() < r
    ensures RanksIncrease(fs + Slot(q, r))
    ensures forall p :: p in fs + Slot(q, r) ==> p.Rank() < r + 1
  {
    var t := fs + Slot(q, r);
    forall i, j | 0 <= i < j < |t|
      ensures t[i].Rank() < t[j].Rank()
    {
      assert fs[i] in fs;
      if j >= |fs| {
        assert t[j] in Slot(q, r);
      }
    }
  }

  /**
   * The handler pushes at most one filter of each kind, in the fixed order
   * search, location, type, level, status, salary_min, salary_max, company.
   */
  lemma RequestedInOrder(q: ListQuery)
    ensures RanksIncrease(Requested(q))
    ensures |Requested(q)| <= 8
  {
    var s0, s1, s2, s3 := Slot(q, 0), Slot(q, 1), Slot(q, 2), Slot(q, 3);
    var s4, s5, s6, s7 := Slot(q, 4), Slot(q, 5), Slot(q, 6), Slot(q, 7);
    AppendSlot([], q, 0);
    AppendSlot(s0, q, 1);
    AppendSlot(s0 + s1, q, 2);
    AppendSlot(s0 + s1 + s2, q, 3);
    AppendSlot(s0 + s1 + s2 + s3, q, 4);
    AppendSlot(s0 + s1 + s2 + s3 + s4, q, 5);
    AppendSlot(s0 + s1 + s2 + s3 + s4 + s5, q, 6);
    AppendSlot(s0 + s1 + s2 + s3 + s4 + s5 + s6, q, 7);
    assert [] + s0 == s0;
  }

  /** What one filter asks of a row, stated without SQL: containment, equality or a bound. */
  ghost predicate Meets(j: Job, p: Pred) {
    match p
    case TitleLike(t) => j.title.Text? && ContainsFold(j.title.s, t)
    case LocationLike(t) => j.location.Text? && ContainsFold(j.location.s, t)
    case TypeEq(v) => j.jobType == Text(v)
    case LevelEq(v) => j.level == Text(v)
    case StatusEq(v) => j.status == Text(v)
    case SalaryMinLe(b) => j.salaryMin.Num? && j.salaryMin.n <= b
    case SalaryMaxLe(b) => j.salaryMax.Num? && j.salaryMax.n <= b
    case CompanyLike(t) => j.company.Text? && ContainsFold(j.company.s, t)
  }

  /** A LIKE filter whose term holds no wildcard; the other filters always qualify. */
  predicate Literal(p: Pred) {
    match p
    case TitleLike(t) => Plain(t)
    case LocationLike(t) => Plain(t)
    case CompanyLike(t) => Plain(t)
    case _ => true
  }

  /**
   * The fragment and parameter of a filter select exactly the rows the
   * filter describes: a LIKE '%term%' is case-insensitive containment, and
   * both salary filters keep rows whose salary is at most the bound.
   */
  lemma FilterMeaning(j: Job, p: Pred)
    requires Literal(p)
    ensures Holds(j, p.Fragment(), p.Argument()) <==> Meets(j, p)
  {
    match p
    case TitleLike(t) =>
      if j.title.Text? {
        LikeContains(j.title.s, t);
      }
    case LocationLike(t) =>
      if j.location.Text? {
        LikeContains(j.location.s, t);
      }
    case CompanyLike(t) =>
      if j.company.Text? {
        LikeContains(j.company.s, t);
      }
    case _ =>
  }

  /** A search term of "%" is not escaped: it matches every title. */
  lemma PercentSearchMatchesAll(j: Job)
    requires j.title.Text?
    ensures Holds(j, TitleLike("%").Fragment(), TitleLike("%").Argument())
  {
    PercentTermMatchesAll(j.title.s);
  }

  /** No term of the request holds a LIKE wildcard. */
  predicate PlainTerms(q: ListQuery) {
    && (q.search.Some? ==> Plain(q.search.value))
    && (q.location.Some? ==> Plain(q.location.value))
    && (q.company.Some? ==> Plain(q.company.value))
  }

  /**
   * The rows a listing request selects, stated from the query parameters
   * alone; salary_min and salary_max both bound the salary from above.
   */
  ghost predicate Selects(q: ListQuery, j: Job) {
    && (Given(q.search) ==> j.title.Text? && ContainsFold(j.title.s, q.search.value))
    && (Given(q.location) ==> j.location.Text? && ContainsFold(j.location.s, q.location.value))
    && (Given(q.jobType) ==> j.jobType == Text(q.jobType.value))
    && (Given(q.level) ==> j.level == Text(q.level.value))
    && (Given(q.status) ==> j.status == Text(q.status.value))
    && (q.salaryMin.Some? ==> j.salaryMin.Num? && j.salaryMin.n <= q.salaryMin.value)
    && (q.salaryMax.Some? ==> j.salaryMax.Num? && j.salaryMax.n <= q.salaryMax.value)
    && (Given(q.company) ==> j.company.Text? && ContainsFold(j.company.s, q.company.value))
  }

  /** The row meets every filter of `fs`. */
  ghost predicate AllMeet(j: Job, fs: seq<Pred>) {
    forall p :: p in fs ==> Meets(j, p)
  }

  lemma AllMeetAppend(j: Job, a: seq<Pred>, b: seq<Pred>)
    ensures AllMeet(j, a + b) <==> AllMeet(j, a) && AllMeet(j, b)
  {
  }

  lemma AllMeetSingle(j: Job, p: Pred)
    ensures AllMeet(j, [p]) <==> Meets(j, p)
  {
    assert p in [p];
  }

  /** A row satisfies the bound WHERE clauses of some filters iff it meets each filter. */
  lemma MatchesEach(j: Job, fs: seq<Pred>)
    requires forall p :: p in fs ==> Literal(p)
    ensures RowMatches(j, Clauses(fs), Params(fs)) <==> AllMeet(j, fs)
  {
    if RowMatches(j, Clauses(fs), Params(fs)) {
      forall p | p in fs
        ensures Meets(j, p)
      {
        var i :| 0 <= i < |fs| && fs[i] == p;
        assert Holds(j, Clauses(fs)[i], Params(fs)[i]);
        FilterMeaning(j, p);
      }
    }
    if AllMeet(j, fs) {
      forall i | 0 <= i < |fs|
        ensures Holds(j, Clauses(fs)[i], Params(fs)[i])
      {
        assert fs[i] in fs;
        FilterMeaning(j, fs[i]);
      }
    }
  }

  /** Meeting every requested filter is meeting every filter of each slot. */
  lemma RequestedSlots(q: ListQuery, j: Job)
    ensures AllMeet(j, Requested(q)) <==>
      && AllMeet(j, Slot(q, 0)) && AllMeet(j, Slot(q, 1)) && AllMeet(j, Slot(q, 2)) && AllMeet(j, Slot(q, 3))
      && AllMeet(j, Slot(q, 4)) && AllMeet(j, Slot(q, 5)) && AllMeet(j, Slot(q, 6)) && AllMeet(j, Slot(q, 7))
  {
    var s0, s1, s2, s3 := Slot(q, 0), Slot(q, 1), Slot(q, 2), Slot(q, 3);
    var s4, s5, s6, s7 := Slot(q, 4), Slot(q, 5), Slot(q, 6), Slot(q, 7);
    AllMeetAppend(j, s0 + s1 + s2 + s3 + s4 + s5 + s6, s7);
    AllMeetAppend(j, s0 + s1 + s2 + s3 + s4 + s5, s6);
    AllMeetAppend(j, s0 + s1 + s2 + s3 + s4, s5);
    AllMeetAppend(j, s0 + s1 + s2 + s3, s4);
    AllMeetAppend(j, s0 + s1 + s2, s3);
    AllMeetAppend(j, s0 + s1, s2);
    AllMeetAppend(j, s0, s1);
  }

  /** The first four slots' filters, when present, ask what the matching conjuncts of Selects ask. */
  lemma EarlySlotsMeaning(q: ListQuery, j: Job)
    ensures AllMeet(j, Slot(q, 0)) <==> (Given(q.search) ==> j.title.Text? && ContainsFold(j.title.s, q.search.value))
    ensures AllMeet(j, Slot(q, 1)) <==> (Given(q.location) ==> j.location.Text? && ContainsFold(j.location.s, q.location.value))
    ensures AllMeet(j, Slot(q, 2)) <==> (Given(q.jobType) ==> j.jobType == Text(q.jobType.value))
    ensures AllMeet(j, Slot(q, 3)) <==> (Given(q.level) ==> j.level == Text(q.level.value))
  {
    if Given(q.search) { AllMeetSingle(j, TitleLike(q.search.value)); }
    if Given(q.location) { AllMeetSingle(j, LocationLike(q.location.value)); }
    if Given(q.jobType) { AllMeetSingle(j, TypeEq(q.jobType.value)); }
    if Given(q.level) { AllMeetSingle(j, LevelEq(q.level.value)); }
  }

  /** The last four slots' filters, when present, ask what the matching conjuncts of Selects ask. */
  lemma LateSlotsMeaning(q: ListQuery, j: Job)
    ensures AllMeet(j, Slot(q, 4)) <==> (Given(q.status) ==> j.status == Text(q.status.value))
    ensures AllMeet(j, Slot(q, 5)) <==> (q.salaryMin.Some? ==> j.salaryMin.Num? && j.salaryMin.n <= q.salaryMin.value)
    ensures AllMeet(j, Slot(q, 6)) <==> (q.salaryMax.Some? ==> j.salaryMax.Num? && j.salaryMax.n <= q.salaryMax.value)
    ensures AllMeet(j, Slot(q, 7)) <==> (Given(q.company) ==> j.company.Text? && ContainsFold(j.company.s, q.company.value))
  {
    if Given(q.status) { AllMeetSingle(j, StatusEq(q.status.value)); }
    if q.salaryMin.Some? { AllMeetSingle(j, SalaryMinLe(q.salaryMin.value)); }
    if q.salaryMax.Some? { AllMeetSingle(j, SalaryMaxLe(q.salaryMax.value)); }
    if Given(q.company) { AllMeetSingle(j, CompanyLike(q.company.value)); }
  }

  /**
   * The WHERE clauses the handler builds select exactly the rows Selects
   * describes, when no term carries a LIKE wildcard.
   */
  lemma FilterSemantics(q: ListQuery, j: Job)
    requires PlainTerms(q)
    ensures RowMatches(j, Clauses(Requested(q)), Params(Requested(q))) <==> Selects(q, j)
  {
    assert forall p :: p in Requested(q) ==> Literal(p);
    MatchesEach(j, Requested(q));
    RequestedSlots(q, j);
    EarlySlotsMeaning(q, j);
    LateSlotsMeaning(q, j);
  }

  /**
   * Each guard that passes pushes its filter, whatever the term holds
   * (wildcards included), and nothing else is pushed: one filter per given
   * parameter.
   */
  lemma EveryGivenFilterPushed(q: ListQuery)
    ensures Given(q.search) ==> TitleLike(q.search.value) in Requested(q)
    ensures Given(q.location) ==> LocationLike(q.location.value) in Requested(q)
    ensures Given(q.jobType) ==> TypeEq(q.jobType.value) in Requested(q)
    ensures Given(q.level) ==> LevelEq(q.level.value) in Requested(q)
    ensures Given(q.status) ==> StatusEq(q.status.value) in Requested(q)
    ensures q.salaryMin.Some? ==> SalaryMinLe(q.salaryMin.value) in Requested(q)
    ensures q.salaryMax.Some? ==> SalaryMaxLe(q.salaryMax.value) in Requested(q)
    ensures Given(q.company) ==> CompanyLike(q.company.value) in Requested(q)
  {
    var s0, s1, s2, s3 := Slot(q, 0), Slot(q, 1), Slot(q, 2), Slot(q, 3);
    var s4, s5, s6, s7 := Slot(q, 4), Slot(q, 5), Slot(q, 6), Slot(q, 7);
    var early, late := s0 + s1 + s2 + s3, s4 + s5 + s6 + s7;
    InSlotRequested(q, 0, early, late);
    InSlotRequested(q, 1, early, late);
    InSlotRequested(q, 2, early, late);
    InSlotRequested(q, 3, early, late);
    InSlotRequested(q, 4, early, late);
    InSlotRequested(q, 5, early, late);
    InSlotRequested(q, 6, early, late);
    InSlotRequested(q, 7, early, late);
  }

  /** One filter is pushed per given parameter, and no other. */
  lemma RequestedCount(q: ListQuery)
    ensures |Requested(q)| == GivenCount(q)
  {
    var s0, s1, s2, s3 := Slot(q, 0), Slot(q, 1), Slot(q, 2), Slot(q, 3);
    var s4, s5, s6, s7 := Slot(q, 4), Slot(q, 5), Slot(q, 6), Slot(q, 7);
    assert |s0| == (if Given(q.search) then 1 else 0);
    assert |s1| == (if Given(q.location) then 1 else 0);
    assert |s2| == (if Given(q.jobType) then 1 else 0);
    assert |s3| == (if Given(q.level) then 1 else 0);
    assert |s4| == (if Given(q.status) then 1 else 0);
    assert |s5| == (if q.salaryMin.Some? then 1 else 0);
    assert |s6| == (if q.salaryMax.Some? then 1 else 0);
    assert |s7| == (if Given(q.company) then 1 else 0);
    assert |Requested(q)| == |s0| + |s1| + |s2| + |s3| + |s4| + |s5| + |s6| + |s7|;
  }

  /** What one slot holds is among the requested filters. */
  lemma InSlotRequested(q: ListQuery, r: nat, early: seq<Pred>, late: seq<Pred>)
    requires early == Slot(q, 0) + Slot(q, 1) + Slot(q, 2) + Slot(q, 3)
    requires late == Slot(q, 4) + Slot(q, 5) + Slot(q, 6) + Slot(q, 7)
    ensures forall p :: p in Slot(q, r) ==> p in Requested(q)
  {
    assert Requested(q) == early + late;
  }

  /** A request without filters builds no WHERE clause and selects every row. */
  lemma NoFiltersSelectAll(q: ListQuery, j: Job)
    requires !Given(q.search) && !Given(q.location) && !Given(q.jobType) && !Given(q.level)
    requires !Given(q.status) && q.salaryMin.None? && q.salaryMax.None? && !Given(q.company)
    ensures Requested(q) == []
    ensures RowMatches(j, Clauses(Requested(q)), Params(Requested(q)))
  {
  }

  /** The query plan the handler builds for one request. */
  datatype Plan = Plan(
    clauses: seq<Clause>,
    params: seq<Cell>,
    sortKey: SortKey,
    direction: Direction,
    limit: int,
    offset: int)

  /**
   * The handler's construction of the plan (routes/jobs.js:25-43, 85-91):
   * paging, the sort resolved against the allow-list, and the WHERE clauses.
   */
  method BuildPlan(q: ListQuery) returns (plan: Plan)
    ensures |plan.clauses| == |plan.params|
    ensures plan.clauses == Clauses(Requested(q)) && plan.params == Params(Requested(q))
    ensures plan.sortKey == ResolveSort(q.sort.GetOr("created_at"))
    ensures plan.direction == ResolveOrder(q.order.GetOr("desc"))
    ensures plan.direction.Keyword() ==
      if Lower(q.order.GetOr("desc")) == "asc" then "DESC" else "ASC"
    ensures plan.limit == q.Limit() && plan.offset == Offset(q.Page(), q.Limit())
  {
    var page, limit := q.page.GetOr(1), q.limit.GetOr(10);
    var offset := (page - 1) * limit;
    var sortKey := ResolveSort(q.sort.GetOr("created_at"));
    var direction := ResolveOrder(q.order.GetOr("desc"));
    var filters := BuildWhere(q);
    plan := Plan(Clauses(filters), Params(filters), sortKey, direction, limit, offset);
  }

  /**
   * The filters pushed onto the WHERE list, one per present query parameter
   * in the handler's fixed order (routes/jobs.js:42-83); each carries the
   * fragment and the parameter pushed together.
   */
  method BuildWhere(q: ListQuery) returns (filters: seq<Pred>)
    ensures filters == Requested(q)
  {
    filters := [];
    if Given(q.search) {
      filters := filters + [TitleLike(q.search.value)];
    }
    assert filters == Slot(q, 0);
    if Given(q.location) {
      filters := filters + [LocationLike(q.location.value)];
    }
    assert filters == Slot(q, 0) + Slot(q, 1);
    if Given(q.jobType) {
      filters := filters + [TypeEq(q.jobType.value)];
    }
    assert filters == Slot(q, 0) + Slot(q, 1) + Slot(q, 2);
    if Given(q.level) {
      filters := filters + [LevelEq(q.level.value)];
    }
    assert filters == Slot(q, 0) + Slot(q, 1) + Slot(q, 2) + Slot(q, 3);
    if Given(q.status) {
      filters := filters + [StatusEq(q.status.value)];
    }
    assert filters == Slot(q, 0) + Slot(q, 1) + Slot(q, 2) + Slot(q, 3) + Slot(q, 4);
    if q.salaryMin.Some? {
      filters := filters + [SalaryMinLe(q.salaryMin.value)];
    }
    assert filters == Slot(q, 0) + Slot(q, 1) + Slot(q, 2) + Slot(q, 3) + Slot(q, 4) + Slot(q, 5);
    if q.salaryMax.Some? {
      filters := filters + [SalaryMaxLe(q.salaryMax.value)];
    }
    assert filters == Slot(q, 0) + Slot(q, 1) + Slot(q, 2) + Slot(q, 3) + Slot(q, 4) + Slot(q, 5) + Slot(q, 6);
    if Given(q.company) {
      filters := filters + [CompanyLike(q.company.value)];
    }
    assert filters == Slot(q, 0) + Slot(q, 1) + Slot(q, 2) + Slot(q, 3) + Slot(q, 4) + Slot(q, 5) + Slot(q, 6) + Slot(q, 7);
  }
}
