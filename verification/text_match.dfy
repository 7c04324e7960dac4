/** The optional values of a request: a query parameter or body key that may be missing. */
module Options {

  datatype Option<T> = None | Some(value: T) {

    /** The value, or `default` when it is missing (a destructuring default in JavaScript). */
    function GetOr(default: T): T {
      match this
      case Some(v) => v
      case None => default
    }
  }
}

/**
 * String comparisons the database performs on the job table: ASCII case
 * folding, the LIKE operator and the BINARY collation used by ORDER BY.
 */
module TextMatch {

  /** ASCII lower-casing: the only folding SQLite's LIKE applies. */
  function LowerChar(c: char): char {
    if 'A' <= c <= 'Z' then (c as int + 32) as char else c
  }

  function Lower(s: string): string {
    seq(|s|, i requires 0 <= i < |s| => LowerChar(s[i]))
  }

  /**
   * SQLite's LIKE without an ESCAPE clause: '%' matches any run of
   * characters, '_' matches one character, and any other character matches
   * itself up to ASCII case.
   */
  predicate Like(s: string, p: string)
    decreases |s| + |p|
  {
    if p == [] then s == []
    else if p[0] == '%' then Like(s, p[1..]) || (s != [] && Like(s[1..], p))
    else s != [] && (p[0] == '_' || LowerChar(s[0]) == LowerChar(p[0])) && Like(s[1..], p[1..])
  }

  /** A search term with no LIKE wildcard in it. */
  predicate Plain(t: string) {
    forall i :: 0 <= i < |t| ==> t[i] != '%' && t[i] != '_'
  }

  /** `t` occurs in `s` at position `i`, ignoring ASCII case. */
  predicate OccursAt(s: string, t: string, i: int) {
    0 <= i && i + |t| <= |s| && forall k :: 0 <= k < |t| ==> LowerChar(s[i + k]) == LowerChar(t[k])
  }

  /** `t` is a substring of `s`, ignoring ASCII case. */
  ghost predicate ContainsFold(s: string, t: string) {
    exists i :: OccursAt(s, t, i)
  }

  lemma {:induction false} LikeTrailingPercent(s: string)
    ensures Like(s, "%")
  {
    assert "%"[1..] == "";
    if s != [] {
      LikeTrailingPercent(s[1..]);
    }
  }

  /** For a wildcard-free term, `LIKE 't%'` is a case-insensitive prefix test. */
  lemma {:induction false} LikePrefix(s: string, t: string)
    requires Plain(t)
    ensures Like(s, t + "%") <==> OccursAt(s, t, 0)
  {
    if t == [] {
      assert t + "%" == "%";
      LikeTrailingPercent(s);
    } else {
      var p := t + "%";
      assert p[0] == t[0] && p[1..] == t[1..] + "%";
      if s != [] {
        LikePrefix(s[1..], t[1..]);
        if LowerChar(s[0]) == LowerChar(t[0]) && OccursAt(s[1..], t[1..], 0) {
          forall k | 0 <= k < |t|
            ensures LowerChar(s[k]) == LowerChar(t[k])
          {
            if k > 0 {
              assert s[k] == s[1..][k - 1] && t[k] == t[1..][k - 1];
            }
          }
        }
        if OccursAt(s, t, 0) {
          forall k | 0 <= k < |t| - 1
            ensures LowerChar(s[1..][k]) == LowerChar(t[1..][k])
          {
            assert LowerChar(s[k + 1]) == LowerChar(t[k + 1]);
          }
        }
      }
    }
  }

  /** A leading '%' lets the rest of the pattern match any suffix. */
  lemma {:induction false} LikeLeadingPercent(s: string, q: string)
    ensures Like(s, "%" + q) <==> exists i :: 0 <= i <= |s| && Like(s[i..], q)
  {
    var p := "%" + q;
    assert p[0] == '%' && p[1..] == q;
    assert s[0..] == s;
    if s != [] {
      LikeLeadingPercent(s[1..], q);
      if Like(s[1..], p) {
        var j :| 0 <= j <= |s| - 1 && Like(s[1..][j..], q);
        assert s[1..][j..] == s[j + 1..];
        assert Like(s[j + 1..], q);
      }
      if exists i :: 0 <= i <= |s| && Like(s[i..], q) {
        var i :| 0 <= i <= |s| && Like(s[i..], q);
        if i > 0 {
          assert s[1..][i - 1..] == s[i..];
          assert Like(s[1..][i - 1..], q);
        }
      }
    }
  }

  /** `LIKE '%t%'` with a wildcard-free `t` is case-insensitive containment. */
  lemma LikeContains(s: string, t: string)
    requires Plain(t)
    ensures Like(s, "%" + t + "%") <==> ContainsFold(s, t)
  {
    assert "%" + t + "%" == "%" + (t + "%");
    LikeLeadingPercent(s, t + "%");
    if ContainsFold(s, t) {
      var i :| OccursAt(s, t, i);
      LikePrefix(s[i..], t);
      assert OccursAt(s[i..], t, 0) by {
        forall k | 0 <= k < |t|
          ensures LowerChar(s[i..][k]) == LowerChar(t[k])
        {
          assert s[i..][k] == s[i + k];
        }
      }
      assert Like(s[i..], t + "%");
    }
    if exists i :: 0 <= i <= |s| && Like(s[i..], t + "%") {
      var i :| 0 <= i <= |s| && Like(s[i..], t + "%");
      LikePrefix(s[i..], t);
      forall k | 0 <= k < |t|
        ensures LowerChar(s[i + k]) == LowerChar(t[k])
      {
        assert s[i..][k] == s[i + k];
      }
      assert OccursAt(s, t, i);
    }
  }

  /** A search term that is a single '%' matches every text value. */
  lemma {:induction false} PercentTermMatchesAll(s: string)
    ensures Like(s, "%" + "%" + "%")
  {
    var p := "%" + "%" + "%";
    assert p == "%%%";
    assert p[1..] == "%%" && p[1..][1..] == "%";
    LikeTrailingPercent(s);
  }

  /**
   * Lexicographic order on code points. It is SQLite's BINARY collation:
   * UTF-8 byte order agrees with code-point order.
   */
  predicate StrLt(a: string, b: string) {
    if a == [] then b != []
    else b != [] && (a[0] < b[0] || (a[0] == b[0] && StrLt(a[1..], b[1..])))
  }

  lemma {:induction false} StrLtIrreflexive(a: string)
    ensures !StrLt(a, a)
  {
    if a != [] {
      StrLtIrreflexive(a[1..]);
    }
  }

  lemma {:induction false} StrLtTransitive(a: string, b: string, c: string)
    requires StrLt(a, b) && StrLt(b, c)
    ensures StrLt(a, c)
  {
    if a != [] && a[0] == b[0] && b[0] == c[0] {
      StrLtTransitive(a[1..], b[1..], c[1..]);
    }
  }

  lemma {:induction false} StrLtTotal(a: string, b: string)
    requires a != b
    ensures StrLt(a, b) || StrLt(b, a)
  {
    if a != [] && b != [] && a[0] == b[0] {
      assert a == [a[0]] + a[1..] && b == [b[0]] + b[1..];
      StrLtTotal(a[1..], b[1..]);
    }
  }
}
