/**
 * The `jobs` table as the handlers of routes/jobs.js see it: rows keyed by
 * id, the AUTOINCREMENT counter, and the seven endpoints that read or
 * change them.
 */
module Store {
  import opened Options
  import opened Cells
  import opened Jobs
  import opened Ordering
  import opened Pagination
  import opened Listing
  import opened Mutations

  /** Every row is stored under its own id. */
  predicate Keyed(rows: map<int, Job>) {
    forall id :: id in rows ==> rows[id].id == id
  }

  lemma Member<T>(s: set<T>) returns (x: T)
    requires s != {}
    ensures x in s
  {
    x :| x in s;
  }

  lemma {:induction false} LeastOf(ids: set<int>) returns (least: int)
    requires ids != {}
    ensures least in ids && forall i :: i in ids ==> least <= i
    decreases |ids|
  {
    var x := Member(ids);
    if ids == {x} {
      least := x;
    } else {
      var rest := ids - {x};
      var m := LeastOf(rest);
      least := if x < m then x else m;
      forall i | i in ids
        ensures least <= i
      {
        if i != x {
          assert i in rest;
        }
      }
    }
  }

  /** The smallest id of a non-empty set of ids. */
  function Least(ids: set<int>): (m: int)
    requires ids != {}
    ensures m in ids && forall i :: i in ids ==> m <= i
  {
    assert exists m :: m in ids && forall i :: i in ids ==> m <= i by {
      var least := LeastOf(ids);
    }
    var m :| m in ids && forall i :: i in ids ==> m <= i;
    m
  }

  /** The rows with the given ids in ORDER BY k d order: SQLite's `ORDER BY` over a selection. */
  function Arrange(rows: map<int, Job>, ids: set<int>, k: SortKey, d: Direction): (s: seq<Job>)
    requires Keyed(rows) && ids <= rows.Keys
    ensures Sorted(s, k, d)
    ensures forall x :: x in s ==> x.id in ids && rows[x.id] == x
    ensures forall id :: id in ids ==> rows[id] in s
    ensures |s| == |ids|
    decreases ids
  {
    if ids == {} then []
    else
      var id := Least(ids);
      var rest := Arrange(rows, ids - {id}, k, d);
      var s := Insert(rest, rows[id], k, d);
      assert forall x :: x in s <==> x in rest || x == rows[id] by {
        assert forall x :: x in s <==> x in multiset(s);
        assert forall x :: x in rest <==> x in multiset(rest);
      }
      assert |s| == |rest| + 1 by {
        assert |multiset(s)| == |s| && |multiset(rest)| == |rest|;
      }
      s
  }

  /** The ids of the rows satisfying `WHERE` the clauses bound to `params`. */
  function Matching(rows: map<int, Job>, clauses: seq<Clause>, params: seq<Cell>): (m: set<int>)
    requires |clauses| == |params|
    ensures m <= rows.Keys
    ensures forall id :: id in m <==> id in rows && RowMatches(rows[id], clauses, params)
  {
    set id | id in rows.Keys && RowMatches(rows[id], clauses, params)
  }

  /**
   * With literal search terms, the rows the listing's WHERE clauses keep are
   * exactly the rows the request describes.
   */
  lemma MatchingSelects(rows: map<int, Job>, q: ListQuery)
    requires PlainTerms(q)
    ensures Matching(rows, Clauses(Requested(q)), Params(Requested(q)))
         == set id | id in rows && Selects(q, rows[id])
  {
    forall id | id in rows
      ensures RowMatches(rows[id], Clauses(Requested(q)), Params(Requested(q))) <==> Selects(q, rows[id])
    {
      FilterSemantics(q, rows[id]);
    }
  }

  /** The answer to GET /:id: the row, or an empty object when there is none. */
  datatype Lookup = Found(job: Job) | EmptyObject

  /** The counts of GET /stats/summary that are not floating point. */
  datatype Summary = Summary(total: int, active: nat, inactive: nat)

  /**
   * The ids of the rows whose status is the text `s`: the rows a listing
   * filtered by `?status=s` alone would count.
   */
  function WithStatus(rows: map<int, Job>, s: string): (ids: set<int>)
    ensures ids <= rows.Keys
    ensures forall id :: id in ids <==> id in rows && rows[id].status == Text(s)
    ensures ids == Matching(rows, Clauses([StatusEq(s)]), Params([StatusEq(s)]))
  {
    assert forall j: Job :: RowMatches(j, Clauses([StatusEq(s)]), Params([StatusEq(s)])) <==> j.status == Text(s) by {
      forall j: Job
        ensures RowMatches(j, Clauses([StatusEq(s)]), Params([StatusEq(s)])) <==> j.status == Text(s)
      {
        assert Clauses([StatusEq(s)])[0] == Clause(Status, EqOp);
        assert Params([StatusEq(s)])[0] == Text(s);
      }
    }
    set id | id in rows.Keys && rows[id].status == Text(s)
  }

  lemma {:induction false} SubsetSize(a: set<int>, b: set<int>)
    requires a <= b
    ensures |a| <= |b|
  {
    if a != {} {
      var x := Member(a);
      SubsetSize(a - {x}, b - {x});
    }
  }

  /** No row is both active and inactive, so the two counts add up to at most the row count. */
  lemma StatusCounts(rows: map<int, Job>)
    ensures var active, inactive := WithStatus(rows, "active"), WithStatus(rows, "inactive");
      |active + inactive| == |active| + |inactive| <= |rows|
  {
    var active, inactive := WithStatus(rows, "active"), WithStatus(rows, "inactive");
    assert active * inactive == {} by {
      forall id | id in active ensures id !in inactive {
        assert Text("active") != Text("inactive");
      }
    }
    SubsetSize(active + inactive, rows.Keys);
  }

  /**
   * The counts of GET /stats/summary (routes/jobs.js:114-153): active and
   * inactive rows, and a `total` computed as active plus active.
   */
  function Summarize(rows: map<int, Job>): (s: Summary)
    ensures s.active == |WithStatus(rows, "active")| && s.inactive == |WithStatus(rows, "inactive")|
    ensures s.active + s.inactive <= |rows|
    ensures s.total == 2 * s.active
  {
    StatusCounts(rows);
    var active := |WithStatus(rows, "active")|;
    Summary(active + active, active, |WithStatus(rows, "inactive")|)
  }

  /**
   * When every row is active or inactive, the reported total is the number
   * of rows exactly when there are as many active rows as inactive ones.
   */
  lemma TotalIsRowCountOnlyWhenBalanced(rows: map<int, Job>)
    requires forall id :: id in rows ==> rows[id].status == Text("active") || rows[id].status == Text("inactive")
    ensures Summarize(rows).total == |rows| <==> Summarize(rows).active == Summarize(rows).inactive
  {
    var active, inactive := WithStatus(rows, "active"), WithStatus(rows, "inactive");
    StatusCounts(rows);
    assert active + inactive == rows.Keys by {
      forall id | id in rows.Keys
        ensures id in active + inactive
      {
        assert id in rows;
      }
    }
  }

  class JobTable {
    /** The stored rows, by id. */
    var rows: map<int, Job>
    /** The largest id ever issued; AUTOINCREMENT never issues an id twice. */
    var lastId: int

    ghost predicate Valid()
      reads this
    {
      && lastId >= 0
      && Keyed(rows)
      && forall id :: id in rows ==> 1 <= id <= lastId && rows[id].WellFormed()
    }

    constructor ()
      ensures Valid()
      ensures rows == map[] && lastId == 0
    {
      rows := map[];
      lastId := 0;
    }

    /** GET /:id (routes/jobs.js:158-171): a missing id answers an empty object, not 404. */
    function Find(id: int): (r: Lookup)
      reads this
      requires Valid()
      ensures r == EmptyObject <==> id !in rows
      ensures r.Found? ==> r.job == rows[id] && r.job.id == id && r.job.WellFormed()
    {
      if id in rows then Found(rows[id]) else EmptyObject
    }

    /** POST / (routes/jobs.js:176-214): insert the new row under the next id. */
    method Create(body: Body, now: string) returns (r: Result<Job>)
      requires Valid()
      modifies this
      ensures Valid()
      ensures r == NewRow(body, old(lastId) + 1, now)
      ensures r.Ok? ==> r.value.id !in old(rows) && r.value.id > old(lastId)
      ensures r.Ok? ==> rows == old(rows)[r.value.id := r.value] && lastId == r.value.id
      ensures r.Fail? ==> rows == old(rows) && lastId == old(lastId)
    {
      r := NewRow(body, lastId + 1, now);
      if r.Ok? {
        lastId := lastId + 1;
        rows := rows[lastId := r.value];
      }
    }

    /** PUT /:id (routes/jobs.js:219-264): the id is looked up before the body is checked. */
    method Replace(id: int, body: Body) returns (r: Result<Job>)
      requires Valid()
      modifies this
      ensures Valid()
      ensures id !in old(rows) ==> r == Fail(NotFound)
      ensures id in old(rows) ==> r == ReplaceRow(old(rows)[id], body)
      ensures r.Ok? ==> rows == old(rows)[id := r.value]
      ensures r.Fail? ==> rows == old(rows)
      ensures lastId == old(lastId)
    {
      if id !in rows {
        return Fail(NotFound);
      }
      r := ReplaceRow(rows[id], body);
      if r.Ok? {
        rows := rows[id := r.value];
      }
    }

    /** PATCH /:id (routes/jobs.js:269-314). */
    method Patch(id: int, updates: Body) returns (r: Result<Job>)
      requires Valid()
      modifies this
      ensures Valid()
      ensures id !in old(rows) ==> r == Fail(NotFound)
      ensures id in old(rows) ==> r == PatchRow(old(rows)[id], updates)
      ensures r.Ok? ==> rows == old(rows)[id := r.value]
      ensures r.Fail? ==> rows == old(rows)
      ensures lastId == old(lastId)
    {
      if id !in rows {
        return Fail(NotFound);
      }
      r := PatchRow(rows[id], updates);
      if r.Ok? {
        rows := rows[id := r.value];
      }
    }

    /** DELETE /:id (routes/jobs.js:319-341): remove the row and answer its renamed snapshot. */
    method Delete(id: int) returns (r: Result<map<string, Cell>>)
      requires Valid()
      modifies this
      ensures Valid()
      ensures id !in old(rows) ==> r == Fail(NotFound) && rows == old(rows)
      ensures id in old(rows) ==> r == Ok(Snapshot(old(rows)[id])) && rows == old(rows) - {id}
      ensures lastId == old(lastId)
    {
      if id !in rows {
        return Fail(NotFound);
      }
      r := Ok(Snapshot(rows[id]));
      rows := rows - {id};
    }

    /** The rows a listing request selects, in its ORDER BY order, before LIMIT and OFFSET. */
    function Listed(q: ListQuery): (s: seq<Job>)
      reads this
      requires Valid()
      ensures Sorted(s, ResolveSort(q.sort.GetOr("created_at")), ResolveOrder(q.order.GetOr("desc")))
      ensures forall x :: x in s ==> x.id in rows && rows[x.id] == x && RowMatches(x, Clauses(Requested(q)), Params(Requested(q)))
      ensures forall id :: id in rows && RowMatches(rows[id], Clauses(Requested(q)), Params(Requested(q))) ==> rows[id] in s
      ensures |s| == |Matching(rows, Clauses(Requested(q)), Params(Requested(q)))|
    {
      var fs := Requested(q);
      Arrange(rows, Matching(rows, Clauses(fs), Params(fs)), ResolveSort(q.sort.GetOr("created_at")), ResolveOrder(q.order.GetOr("desc")))
    }

    /**
     * GET / (routes/jobs.js:8-105): one page of the selected rows and the
     * envelope; the count and the page come from the same WHERE clauses.
     */
    method List(q: ListQuery) returns (data: seq<Job>, pagination: Envelope)
      requires Valid() && PagingOk(q)
      ensures data == Window(Listed(q), Offset(q.Page(), q.Limit()), q.Limit())
      ensures pagination == Paginate(q.Page(), q.Limit(), |Listed(q)|)
    {
      var plan := BuildPlan(q);
      var selected := Matching(rows, plan.clauses, plan.params);
      var total := |selected|;
      var ordered := Arrange(rows, selected, plan.sortKey, plan.direction);
      assert ordered == Listed(q) && total == |ordered|;
      data := Window(ordered, plan.offset, plan.limit);
      pagination := Paginate(q.Page(), q.Limit(), total);
    }

    /**
     * GET /stats/summary over the stored rows: each status count is the total
     * a listing filtered by that status alone would report.
     */
    function Stats(): (s: Summary)
      reads this
      ensures s == Summarize(rows)
      ensures s.active == |Matching(rows, Clauses([StatusEq("active")]), Params([StatusEq("active")]))|
      ensures s.inactive == |Matching(rows, Clauses([StatusEq("inactive")]), Params([StatusEq("inactive")]))|
      ensures s.total == s.active + s.active
    {
      Summarize(rows)
    }
  }

  /**
   * The listing is determined by the request: any sorted arrangement of the
   * rows that meet every filter is the one returned, so the pages are a
   * partition of it.
   */
  lemma ListingDetermined(t: JobTable, q: ListQuery, s: seq<Job>)
    requires t.Valid() && PlainTerms(q)
    requires Sorted(s, ResolveSort(q.sort.GetOr("created_at")), ResolveOrder(q.order.GetOr("desc")))
    requires forall x :: x in s <==> x.id in t.rows && t.rows[x.id] == x && Selects(q, x)
    ensures s == t.Listed(q)
  {
    forall x: Job | x.id in t.rows && t.rows[x.id] == x
      ensures RowMatches(x, Clauses(Requested(q)), Params(Requested(q))) <==> Selects(q, x)
    {
      FilterSemantics(q, x);
    }
    SortedUnique(s, t.Listed(q), ResolveSort(q.sort.GetOr("created_at")), ResolveOrder(q.order.GetOr("desc")));
  }
}
