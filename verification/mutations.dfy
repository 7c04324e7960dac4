/**
 * What POST, PUT, PATCH and DELETE do to one row of the `jobs` table
 * (routes/jobs.js:176-341), as functions from the request body and the
 * stored row to the new row or the failure the handler answers with.
 */
module Mutations {
  import opened Cells
  import opened Jobs

  /** Why a request changes nothing: 404, 400 or a 500 raised inside the handler. */
  datatype Failure = NotFound | MissingRequired | NoValidField | Internal

  datatype Result<T> = Ok(value: T) | Fail(failure: Failure)

  /** A parsed JSON request body; a key that is absent reads as null. */
  type Body = map<string, Cell>

  function Field(body: Body, key: string): Cell {
    if key in body then body[key] else Null
  }

  /** The most characters of a description POST stores. */
  const DESCRIPTION_LIMIT: nat := 100

  /** The value bound for a column the body leaves falsy: the table default or null. */
  function Default(c: Column): (d: Cell)
    ensures c.NotNull() && c != Title && c != Location ==> Truthy(d)
    ensures !c.NotNull() ==> d == Null
  {
    match c
    case JobType => Text("CLT")
    case Level => Text("junior")
    case Status => Text("active")
    case _ => Null
  }

  /** `value || default`: what POST and PUT bind for a column given `v`. */
  function Stored(c: Column, v: Cell): (r: Cell)
    ensures Truthy(v) ==> r == v
    ensures !Truthy(v) ==> r == Default(c)
    ensures r == Null || Truthy(r)
    ensures c.NotNull() && c != Title && c != Location ==> Truthy(r)
  {
    Or(v, Default(c))
  }

  /** `s.substring(0, 100)`. */
  function Truncate(s: string): (t: string)
    ensures t <= s
    ensures |t| == if |s| <= DESCRIPTION_LIMIT then |s| else DESCRIPTION_LIMIT
  {
    if |s| <= DESCRIPTION_LIMIT then s else s[..DESCRIPTION_LIMIT]
  }

  /**
   * The row POST inserts under `id` at time `now` (routes/jobs.js:176-205):
   * title and location are required (company is not), falsy columns take
   * their defaults, and a description is cut to 100 characters; a truthy
   * description that is not text makes `substring` throw.
   */
  function NewRow(body: Body, id: int, now: string): (r: Result<Job>)
    ensures r.Fail? <==>
      || !Truthy(Field(body, "title")) || !Truthy(Field(body, "location"))
      || (Truthy(Field(body, "description")) && !Field(body, "description").Text?)
    ensures r.Fail? ==>
      r.failure == if Truthy(Field(body, "title")) && Truthy(Field(body, "location")) then Internal else MissingRequired
    ensures r.Ok? ==> r.value.id == id && r.value.createdAt == now && r.value.updatedAt == now
    ensures r.Ok? ==> forall c: Column :: c != Description ==> r.value.Get(c) == Stored(c, Field(body, c.Name()))
    ensures r.Ok? ==> (r.value.description.Text? <==> Truthy(Field(body, "description")))
    ensures r.Ok? && !Truthy(Field(body, "description")) ==> r.value.description == Null
    ensures r.Ok? && r.value.description.Text? ==>
      var s := Field(body, "description").s;
      r.value.description.s <= s && |r.value.description.s| == if |s| <= DESCRIPTION_LIMIT then |s| else DESCRIPTION_LIMIT
    ensures r.Ok? ==> r.value.WellFormed()
  {
    var title, location, description := Field(body, "title"), Field(body, "location"), Field(body, "description");
    if !Truthy(title) || !Truthy(location) then Fail(MissingRequired)
    else if Truthy(description) && !description.Text? then Fail(Internal)
    else
      Ok(Job(
        id,
        title,
        Stored(Company, Field(body, "company")),
        location,
        Stored(SalaryMin, Field(body, "salary_min")),
        Stored(SalaryMax, Field(body, "salary_max")),
        Stored(JobType, Field(body, "type")),
        Stored(Level, Field(body, "level")),
        if Truthy(description) then Text(Truncate(description.s)) else Null,
        Stored(Requirements, Field(body, "requirements")),
        Stored(Status, Field(body, "status")),
        now,
        now))
  }

  /**
   * The row PUT leaves in place of `job` (routes/jobs.js:219-253): title,
   * company and location are required, every writable column is
   * overwritten with the same defaults as POST, the description is stored
   * whole, and id and timestamps are kept.
   */
  function ReplaceRow(job: Job, body: Body): (r: Result<Job>)
    ensures r.Fail? <==>
      !Truthy(Field(body, "title")) || !Truthy(Field(body, "company")) || !Truthy(Field(body, "location"))
    ensures r.Fail? ==> r.failure == MissingRequired
    ensures r.Ok? ==> r.value.id == job.id && r.value.createdAt == job.createdAt && r.value.updatedAt == job.updatedAt
    ensures r.Ok? ==> forall c: Column :: r.value.Get(c) == Stored(c, Field(body, c.Name()))
    ensures r.Ok? ==> r.value.WellFormed()
  {
    var title, company, location := Field(body, "title"), Field(body, "company"), Field(body, "location");
    if !Truthy(title) || !Truthy(company) || !Truthy(location) then Fail(MissingRequired)
    else
      Ok(job.(
        title := title,
        company := company,
        location := location,
        salaryMin := Stored(SalaryMin, Field(body, "salary_min")),
        salaryMax := Stored(SalaryMax, Field(body, "salary_max")),
        jobType := Stored(JobType, Field(body, "type")),
        level := Stored(Level, Field(body, "level")),
        description := Stored(Description, Field(body, "description")),
        requirements := Stored(Requirements, Field(body, "requirements")),
        status := Stored(Status, Field(body, "status"))))
  }

  /** A created row's unset type, level and status take the table defaults. */
  lemma CreateDefaults(body: Body, id: int, now: string)
    requires NewRow(body, id, now).Ok?
    ensures var j := NewRow(body, id, now).value;
      && (!Truthy(Field(body, "type")) ==> j.jobType == Text("CLT"))
      && (!Truthy(Field(body, "level")) ==> j.level == Text("junior"))
      && (!Truthy(Field(body, "status")) ==> j.status == Text("active"))
  {
    var j := NewRow(body, id, now).value;
    assert j.jobType == j.Get(JobType) && j.level == j.Get(Level) && j.status == j.Get(Status);
  }

  /**
   * POST and PUT store the same values for every column but the description,
   * which only POST truncates; the two agree on it too when it is short.
   */
  lemma CreateReplaceAgree(body: Body, id: int, now: string, job: Job)
    requires NewRow(body, id, now).Ok? && Truthy(Field(body, "company"))
    ensures ReplaceRow(job, body).Ok?
    ensures forall c: Column :: c != Description ==>
      NewRow(body, id, now).value.Get(c) == ReplaceRow(job, body).value.Get(c)
    ensures Field(body, "description").Text? && |Field(body, "description").s| <= DESCRIPTION_LIMIT ==>
      NewRow(body, id, now).value.description == ReplaceRow(job, body).value.description
  {
    var created, replaced := NewRow(body, id, now).value, ReplaceRow(job, body).value;
    assert created.description == created.Get(Description) && replaced.description == replaced.Get(Description);
  }

  /** PUT overwrites every column: the result does not depend on the row it replaces. */
  lemma {:induction false} ReplaceForgetsOld(a: Job, b: Job, body: Body)
    requires a.id == b.id && a.createdAt == b.createdAt && a.updatedAt == b.updatedAt
    ensures ReplaceRow(a, body) == ReplaceRow(b, body)
  {
    if ReplaceRow(a, body).Ok? {
      JobExtensionality(ReplaceRow(a, body).value, ReplaceRow(b, body).value);
    }
  }

  /** Repeating a PUT changes nothing more. */
  lemma {:induction false} ReplaceIdempotent(job: Job, body: Body)
    requires ReplaceRow(job, body).Ok?
    ensures ReplaceRow(ReplaceRow(job, body).value, body) == ReplaceRow(job, body)
  {
    ReplaceForgetsOld(ReplaceRow(job, body).value, job, body);
  }

  /**
   * The allow-listed columns a PATCH body names (routes/jobs.js:279-294),
   * in the order of `cols`.
   */
  function Selected(cols: seq<Column>, updates: Body): (fs: seq<Column>)
    ensures forall c :: c in fs <==> c in cols && c.Name() in updates
    ensures |fs| <= |cols|
  {
    if cols == [] then []
    else (if cols[0].Name() in updates then [cols[0]] else []) + Selected(cols[1..], updates)
  }

  lemma SetKeepsWellFormed(j: Job, c: Column, v: Cell)
    requires j.WellFormed() && (c.NotNull() ==> v != Null)
    ensures j.Set(c, v).WellFormed()
  {
  }

  /** `UPDATE jobs SET f1 = ?, f2 = ?, ...` with the body's values, one column after another. */
  function Assign(job: Job, fs: seq<Column>, updates: Body): (r: Job)
    requires forall c :: c in fs ==> c.Name() in updates
    ensures forall c: Column :: r.Get(c) == if c in fs then updates[c.Name()] else job.Get(c)
    ensures r.id == job.id && r.createdAt == job.createdAt && r.updatedAt == job.updatedAt
    ensures job.WellFormed() && (forall c :: c in fs && c.NotNull() ==> updates[c.Name()] != Null) ==> r.WellFormed()
  {
    if fs == [] then job
    else
      var rest := Assign(job, fs[1..], updates);
      var r := rest.Set(fs[0], updates[fs[0].Name()]);
      assert forall c: Column :: r.Get(c) == if c in fs then updates[c.Name()] else job.Get(c) by {
        forall c: Column
          ensures r.Get(c) == if c in fs then updates[c.Name()] else job.Get(c)
        {
          GetSet(rest, fs[0], updates[fs[0].Name()], c);
          assert c in fs <==> c == fs[0] || c in fs[1..];
        }
      }
      GetSet(rest, fs[0], updates[fs[0].Name()], Title);
      if rest.WellFormed() && (fs[0].NotNull() ==> updates[fs[0].Name()] != Null) then
        SetKeepsWellFormed(rest, fs[0], updates[fs[0].Name()]);
        r
      else r
  }

  /**
   * The row PATCH leaves in place of `job` (routes/jobs.js:269-303): only
   * allow-listed keys are applied, a body with none is refused, and a null
   * for a NOT NULL column makes the UPDATE fail as a whole.
   */
  function PatchRow(job: Job, updates: Body): (r: Result<Job>)
    ensures r == Fail(NoValidField) <==> forall c: Column :: c.Name() !in updates
    ensures r == Fail(Internal) <==>
      && (exists c: Column :: c.Name() in updates)
      && (exists c: Column :: c.NotNull() && c.Name() in updates && updates[c.Name()] == Null)
    ensures r.Fail? ==> r.failure == NoValidField || r.failure == Internal
    ensures r.Ok? ==> r.value.id == job.id && r.value.createdAt == job.createdAt && r.value.updatedAt == job.updatedAt
    ensures r.Ok? ==> forall c: Column :: r.value.Get(c) == if c.Name() in updates then updates[c.Name()] else job.Get(c)
    ensures r.Ok? && job.WellFormed() ==> r.value.WellFormed()
  {
    var fs := Selected(WRITABLE, updates);
    assert forall c: Column :: c in fs <==> c.Name() in updates by {
      forall c: Column {
        AllWritable(c);
      }
    }
    if fs == [] then Fail(NoValidField)
    else if exists c :: c in fs && c.NotNull() && updates[c.Name()] == Null then Fail(Internal)
    else Ok(Assign(job, fs, updates))
  }

  /** Keys that name no writable column are ignored by PATCH. */
  lemma PatchIgnoresUnknownKeys(job: Job, updates: Body, key: string, v: Cell)
    requires forall c: Column :: c.Name() != key
    ensures PatchRow(job, updates[key := v]) == PatchRow(job, updates)
  {
    var u := updates[key := v];
    assert forall c: Column :: (c.Name() in u <==> c.Name() in updates) && (c.Name() in u ==> u[c.Name()] == updates[c.Name()]);
    if PatchRow(job, u).Ok? {
      JobExtensionality(PatchRow(job, u).value, PatchRow(job, updates).value);
    }
  }

  /** Repeating a PATCH that succeeded changes nothing more. */
  lemma PatchIdempotent(job: Job, updates: Body)
    ensures PatchRow(job, updates).Ok? ==>
      PatchRow(PatchRow(job, updates).value, updates) == PatchRow(job, updates)
  {
    if PatchRow(job, updates).Ok? {
      JobExtensionality(PatchRow(PatchRow(job, updates).value, updates).value, PatchRow(job, updates).value);
    }
  }

  /**
   * The object DELETE answers with (routes/jobs.js:330-332): the removed row
   * with its `status` key renamed to `statsu`.
   */
  function Snapshot(j: Job): (o: map<string, Cell>)
    ensures "status" !in o
    ensures "statsu" in o && o["statsu"] == j.status
    ensures forall k :: k != "status" && k != "statsu" ==>
      (k in o <==> k in Object(j)) && (k in o ==> o[k] == Object(j)[k])
  {
    (Object(j) - {"status"})["statsu" := j.status]
  }

  /** Renaming `statsu` back to `status` recovers the row's object exactly. */
  lemma SnapshotRestores(j: Job)
    ensures (Snapshot(j) - {"statsu"})["status" := Snapshot(j)["statsu"]] == Object(j)
  {
    var o, back := Object(j), (Snapshot(j) - {"statsu"})["status" := Snapshot(j)["statsu"]];
    assert "status" == Status.Name();
    assert "statsu" !in o;
    assert back.Keys == o.Keys;
  }
}
