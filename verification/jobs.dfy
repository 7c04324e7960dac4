/**
 * The one entity: a row of the `jobs` table (database.js:9-22), with the ten
 * columns a client may write, the store-assigned id and the two timestamps.
 */
module Jobs {
  import opened Cells

  /** The client-writable columns of the table. */
  datatype Column =
    | Title | Company | Location | SalaryMin | SalaryMax
    | JobType | Level | Description | Requirements | Status
  {
    /** The column's name in SQL and its key in a JSON body. */
    function Name(): string {
      match this
      case Title => "title"
      case Company => "company"
      case Location => "location"
      case SalaryMin => "salary_min"
      case SalaryMax => "salary_max"
      case JobType => "type"
      case Level => "level"
      case Description => "description"
      case Requirements => "requirements"
      case Status => "status"
    }

    /** The columns declared NOT NULL. */
    predicate NotNull() {
      this == Title || this == Location || this == JobType || this == Level || this == Status
    }
  }

  /** The writable columns in declaration order; also the allow-list of a partial update. */
  const WRITABLE: seq<Column> :=
    [Title, Company, Location, SalaryMin, SalaryMax, JobType, Level, Description, Requirements, Status]

  datatype Job = Job(
    id: int,
    title: Cell,
    company: Cell,
    location: Cell,
    salaryMin: Cell,
    salaryMax: Cell,
    jobType: Cell,
    level: Cell,
    description: Cell,
    requirements: Cell,
    status: Cell,
    createdAt: string,
    updatedAt: string)
  {
    function Get(c: Column): Cell {
      match c
      case Title => title
      case Company => company
      case Location => location
      case SalaryMin => salaryMin
      case SalaryMax => salaryMax
      case JobType => jobType
      case Level => level
      case Description => description
      case Requirements => requirements
      case Status => status
    }

    function Set(c: Column, v: Cell): Job {
      match c
      case Title => this.(title := v)
      case Company => this.(company := v)
      case Location => this.(location := v)
      case SalaryMin => this.(salaryMin := v)
      case SalaryMax => this.(salaryMax := v)
      case JobType => this.(jobType := v)
      case Level => this.(level := v)
      case Description => this.(description := v)
      case Requirements => this.(requirements := v)
      case Status => this.(status := v)
    }

    /** The table's NOT NULL constraints hold of this row. */
    predicate WellFormed() {
      title != Null && location != Null && jobType != Null && level != Null && status != Null
    }
  }

  /** Two rows that agree on id, timestamps and every column are the same row. */
  lemma JobExtensionality(a: Job, b: Job)
    requires a.id == b.id && a.createdAt == b.createdAt && a.updatedAt == b.updatedAt
    requires forall c: Column :: a.Get(c) == b.Get(c)
    ensures a == b
  {
    assert a.Get(Title) == b.Get(Title) && a.Get(Company) == b.Get(Company);
    assert a.Get(Location) == b.Get(Location) && a.Get(SalaryMin) == b.Get(SalaryMin);
    assert a.Get(SalaryMax) == b.Get(SalaryMax) && a.Get(JobType) == b.Get(JobType);
    assert a.Get(Level) == b.Get(Level) && a.Get(Description) == b.Get(Description);
    assert a.Get(Requirements) == b.Get(Requirements) && a.Get(Status) == b.Get(Status);
  }

  /** Writing one column changes that column and nothing else. */
  lemma GetSet(j: Job, c: Column, v: Cell, d: Column)
    ensures j.Set(c, v).Get(d) == if c == d then v else j.Get(d)
    ensures j.Set(c, v).id == j.id
    ensures j.Set(c, v).createdAt == j.createdAt && j.Set(c, v).updatedAt == j.updatedAt
  {
  }

  /** Every client-writable column is on the allow-list. */
  lemma AllWritable(c: Column)
    ensures c in WRITABLE
  {
  }

  /** The JSON object the API sends for a row, keyed by column name. */
  function Object(j: Job): (o: map<string, Cell>)
    ensures "id" in o && o["id"] == Num(j.id)
    ensures forall c: Column :: c.Name() in o && o[c.Name()] == j.Get(c)
    ensures o.Keys == {"id", "title", "company", "location", "salary_min", "salary_max", "type",
                       "level", "description", "requirements", "status", "created_at", "updated_at"}
    ensures o["created_at"] == Text(j.createdAt) && o["updated_at"] == Text(j.updatedAt)
  {
    map[
      "id" := Num(j.id),
      "title" := j.title,
      "company" := j.company,
      "location" := j.location,
      "salary_min" := j.salaryMin,
      "salary_max" := j.salaryMax,
      "type" := j.jobType,
      "level" := j.level,
      "description" := j.description,
      "requirements" := j.requirements,
      "status" := j.status,
      "created_at" := Text(j.createdAt),
      "updated_at" := Text(j.updatedAt)
    ]
  }
}
