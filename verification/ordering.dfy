/**
 * The ORDER BY of a listing: the six sortable columns, the two directions,
 * and the order of rows they induce.
 */
module Ordering {
  import opened Cells
  import opened Jobs

  /** The identifiers allowed in ORDER BY position (routes/jobs.js:30-37). */
  const SORT_ALLOW_LIST: seq<string> :=
    ["created_at", "updated_at", "title", "salary_min", "salary_max", "company"]

  /** A sortable column; only these can reach the ORDER BY of a query. */
  datatype SortKey = ByCreatedAt | ByUpdatedAt | ByTitle | BySalaryMin | BySalaryMax | ByCompany
  {
    /** The identifier written into the query text. */
    function Name(): (r: string)
      ensures r in SORT_ALLOW_LIST
    {
      match this
      case ByCreatedAt => "created_at"
      case ByUpdatedAt => "updated_at"
      case ByTitle => "title"
      case BySalaryMin => "salary_min"
      case BySalaryMax => "salary_max"
      case ByCompany => "company"
    }
  }

  datatype Direction = Asc | Desc
  {
    /** The keyword written into the query text. */
    function Keyword(): string {
      match this
      case Asc => "ASC"
      case Desc => "DESC"
    }
  }

  /** The value a row is sorted on. */
  function Key(j: Job, k: SortKey): Cell {
    match k
    case ByCreatedAt => Text(j.createdAt)
    case ByUpdatedAt => Text(j.updatedAt)
    case ByTitle => j.title
    case BySalaryMin => j.salaryMin
    case BySalaryMax => j.salaryMax
    case ByCompany => j.company
  }

  /**
   * `a` comes strictly before `b` under ORDER BY k d. SQLite leaves the order
   * of rows with equal keys unspecified; this model breaks ties by id.
   */
  predicate Before(a: Job, b: Job, k: SortKey, d: Direction) {
    var x, y := Key(a, k), Key(b, k);
    (if d == Asc then Lt(x, y) else Lt(y, x)) || (x == y && a.id < b.id)
  }

  lemma BeforeIrreflexive(a: Job, k: SortKey, d: Direction)
    ensures !Before(a, a, k, d)
  {
    LtIrreflexive(Key(a, k));
  }

  lemma BeforeTransitive(a: Job, b: Job, c: Job, k: SortKey, d: Direction)
    requires Before(a, b, k, d) && Before(b, c, k, d)
    ensures Before(a, c, k, d)
  {
    var x, y, z := Key(a, k), Key(b, k), Key(c, k);
    if d == Asc && Lt(x, y) && Lt(y, z) {
      LtTransitive(x, y, z);
    } else if d == Desc && Lt(y, x) && Lt(z, y) {
      LtTransitive(z, y, x);
    }
  }

  lemma BeforeAsymmetric(a: Job, b: Job, k: SortKey, d: Direction)
    requires Before(a, b, k, d)
    ensures !Before(b, a, k, d)
  {
    if Before(b, a, k, d) {
      BeforeTransitive(a, b, a, k, d);
      BeforeIrreflexive(a, k, d);
    }
  }

  lemma BeforeTotal(a: Job, b: Job, k: SortKey, d: Direction)
    requires a.id != b.id
    ensures Before(a, b, k, d) || Before(b, a, k, d)
  {
    if Key(a, k) != Key(b, k) {
      LtTotal(Key(a, k), Key(b, k));
    }
  }

  /** Every row precedes every later row: sorted, with no row twice. */
  predicate Sorted(s: seq<Job>, k: SortKey, d: Direction) {
    forall i, j :: 0 <= i < j < |s| ==> Before(s[i], s[j], k, d)
  }

  /** A row that precedes every row of a sorted listing can head it. */
  lemma PrependSorted(x: Job, s: seq<Job>, k: SortKey, d: Direction)
    requires Sorted(s, k, d)
    requires forall j :: 0 <= j < |s| ==> Before(x, s[j], k, d)
    ensures Sorted([x] + s, k, d)
  {
    assert forall j :: 1 <= j < |s| + 1 ==> ([x] + s)[j] == s[j - 1];
  }

  /** Insertion of one row into a sorted listing. */
  function Insert(s: seq<Job>, x: Job, k: SortKey, d: Direction): (r: seq<Job>)
    requires Sorted(s, k, d)
    requires forall y :: y in s ==> y.id != x.id
    ensures Sorted(r, k, d)
    ensures multiset(r) == multiset(s) + multiset{x}
  {
    if s == [] then [x]
    else if Before(x, s[0], k, d) then
      assert forall j :: 0 <= j < |s| ==> Before(x, s[j], k, d) by {
        forall j | 0 < j < |s|
          ensures Before(x, s[j], k, d)
        {
          BeforeTransitive(x, s[0], s[j], k, d);
        }
      }
      PrependSorted(x, s, k, d);
      [x] + s
    else
      BeforeTotal(x, s[0], k, d);
      var rest := Insert(s[1..], x, k, d);
      assert multiset(rest) == multiset(s[1..]) + multiset{x};
      assert s == [s[0]] + s[1..];
      assert forall j :: 0 <= j < |rest| ==> Before(s[0], rest[j], k, d) by {
        forall j | 0 <= j < |rest|
          ensures Before(s[0], rest[j], k, d)
        {
          assert rest[j] in multiset(rest);
          assert rest[j] == x || rest[j] in s[1..];
        }
      }
      PrependSorted(s[0], rest, k, d);
      [s[0]] + rest
  }

  /** Two sorted listings of the same rows are the same listing. */
  lemma {:induction false} SortedUnique(s: seq<Job>, t: seq<Job>, k: SortKey, d: Direction)
    requires Sorted(s, k, d) && Sorted(t, k, d)
    requires forall x :: x in s <==> x in t
    ensures s == t
  {
    assert s == [] <==> t == [] by {
      if s != [] {
        assert s[0] in t;
      }
      if t != [] {
        assert t[0] in s;
      }
    }
    if s != [] {
      assert s[0] in s && t[0] in t;
      var i :| 0 <= i < |t| && t[i] == s[0];
      var j :| 0 <= j < |s| && s[j] == t[0];
      if i > 0 && j > 0 {
        BeforeAsymmetric(s[0], s[j], k, d);
      } else if i > 0 {
        BeforeIrreflexive(t[0], k, d);
      } else if j > 0 {
        BeforeIrreflexive(s[0], k, d);
      }
      assert s[0] == t[0];
      forall x | x in s[1..]
        ensures x in t[1..]
      {
        var p :| 1 <= p < |s| && s[p] == x;
        if x == t[0] {
          BeforeIrreflexive(s[0], k, d);
        }
        assert x in t;
      }
      forall x | x in t[1..]
        ensures x in s[1..]
      {
        var p :| 1 <= p < |t| && t[p] == x;
        if x == s[0] {
          BeforeIrreflexive(t[0], k, d);
        }
        assert x in s;
      }
      SortedUnique(s[1..], t[1..], k, d);
      assert s == [s[0]] + s[1..] && t == [t[0]] + t[1..];
    }
  }
}
