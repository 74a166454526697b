/** SQL `LIKE` as the search scans use it: `%` matches any run of
    characters, `_` matches exactly one, every other character matches
    itself. Collation (case folding) and the escape character are not part
    of this model. */
module SqlLike {

  /** `s LIKE p`. */
  function Like(s: string, p: string): bool
    decreases |s| + |p|
  {
    if |p| == 0 then |s| == 0
    else if p[0] == '%' then Like(s, p[1..]) || (|s| > 0 && Like(s[1..], p))
    else if p[0] == '_' then |s| > 0 && Like(s[1..], p[1..])
    else |s| > 0 && s[0] == p[0] && Like(s[1..], p[1..])
  }

  /** A query with no wildcard (`%`, `_`) and no escape character (MySQL's
      default, backslash) in it: LIKE treats it literally. */
  predicate Literal(q: string) {
    forall i :: 0 <= i < |q| ==> q[i] != '%' && q[i] != '_' && q[i] != '\\'
  }

  /** The pattern `search` builds: the query with `%` on both sides. */
  function Pattern(q: string): (p: string)
    ensures |p| == |q| + 2 && p[0] == '%' && p[|p| - 1] == '%'
    ensures p[1..|p| - 1] == q
  {
    "%" + q + "%"
  }

  predicate IsPrefix(q: string, s: string) {
    |q| <= |s| && s[..|q|] == q
  }

  /** Plain substring containment, the reference meaning of a search. */
  predicate Contains(s: string, q: string) {
    exists i :: 0 <= i <= |s| && IsPrefix(q, s[i..])
  }

  lemma {:induction false} PercentMatchesAll(s: string)
    ensures Like(s, "%")
    decreases |s|
  {
    assert "%"[1..] == "";
    if |s| > 0 {
      PercentMatchesAll(s[1..]);
    }
  }

  /** A literal followed by `%` matches exactly the strings it prefixes. */
  lemma {:induction false} LiteralPrefix(s: string, q: string)
    requires Literal(q)
    ensures Like(s, q + "%") <==> IsPrefix(q, s)
    decreases |q|
  {
    if |q| == 0 {
      assert q + "%" == "%";
      PercentMatchesAll(s);
    } else {
      var p := q + "%";
      assert p[0] == q[0];
      assert p[1..] == q[1..] + "%";
      assert Literal(q[1..]) by {
        forall i | 0 <= i < |q[1..]| ensures q[1..][i] != '%' && q[1..][i] != '_' && q[1..][i] != '\\' {
          assert q[1..][i] == q[i + 1];
        }
      }
      if |s| > 0 {
        LiteralPrefix(s[1..], q[1..]);
        if IsPrefix(q, s) {
          assert s[1..][..|q[1..]|] == s[..|q|][1..];
        }
        if IsPrefix(q[1..], s[1..]) && s[0] == q[0] {
          assert s[..|q|] == [s[0]] + s[1..][..|q[1..]|];
        }
      }
    }
  }

  /** A leading `%` lets the rest of the pattern match any suffix. */
  lemma {:induction false} LeadingPercent(s: string, x: string)
    ensures Like(s, "%" + x) <==> exists i :: 0 <= i <= |s| && Like(s[i..], x)
    decreases |s|
  {
    var p := "%" + x;
    assert p[0] == '%' && p[1..] == x;
    if |s| == 0 {
      assert Like(s, p) == Like(s, x);
      if exists i :: 0 <= i <= |s| && Like(s[i..], x) {
        var i :| 0 <= i <= |s| && Like(s[i..], x);
        assert i == 0 && s[i..] == s;
      }
      assert s[0..] == s;
    } else {
      LeadingPercent(s[1..], x);
      assert Like(s, p) == (Like(s, x) || Like(s[1..], p));
      if Like(s, p) {
        if Like(s, x) {
          assert s[0..] == s;
        } else {
          var i :| 0 <= i <= |s[1..]| && Like(s[1..][i..], x);
          assert s[1..][i..] == s[i + 1..];
        }
      }
      if exists i :: 0 <= i <= |s| && Like(s[i..], x) {
        var i :| 0 <= i <= |s| && Like(s[i..], x);
        if i == 0 {
          assert s[i..] == s;
        } else {
          assert s[1..][i - 1..] == s[i..];
        }
      }
    }
  }

  /** The search pattern `%q%` of a literal query is substring containment. */
  lemma PatternIsContains(s: string, q: string)
    requires Literal(q)
    ensures Like(s, Pattern(q)) <==> Contains(s, q)
  {
    assert Pattern(q) == "%" + (q + "%");
    LeadingPercent(s, q + "%");
    if Like(s, Pattern(q)) {
      var i :| 0 <= i <= |s| && Like(s[i..], q + "%");
      LiteralPrefix(s[i..], q);
    }
    if Contains(s, q) {
      var i :| 0 <= i <= |s| && IsPrefix(q, s[i..]);
      LiteralPrefix(s[i..], q);
    }
  }
}
