/** The abstract store: a table is a map from primary key to row, plus the
    key that AUTO_INCREMENT will hand out next. Also the pieces of SQL the
    store operations share: `ORDER BY id DESC LIMIT 1`, `LIMIT n`, `WHERE`. */
module Tables {
  import opened Wrappers

  /** An AUTO_INCREMENT table. `next` is never reset by DELETE. */
  datatype Table<R> = Table(rows: map<nat, R>, next: nat)

  /** Every stored key was handed out before `next`. */
  predicate KeysBelowNext<R>(t: Table<R>) {
    forall k :: k in t.rows ==> k < t.next
  }

  /** Which step of a store operation fails. `connect`: opening the
      connection (only the operations that open their own); `statement`:
      the INSERT/SELECT/UPDATE/DELETE itself; `reread`: the SELECT that
      follows an INSERT or UPDATE. */
  datatype Faults = Faults(connect: bool, statement: bool, reread: bool)

  const NoFaults := Faults(false, false, false)

  /** `m` is the greatest element of `s`. */
  predicate IsMax(m: nat, s: set<nat>) {
    m in s && forall x :: x in s ==> x <= m
  }

  /** `m` is the least element of `s`. */
  predicate IsMin(m: nat, s: set<nat>) {
    m in s && forall x :: x in s ==> m <= x
  }

  lemma {:induction false} MaxExists(s: set<nat>)
    requires s != {}
    ensures exists m :: IsMax(m, s)
    decreases s
  {
    var y :| y in s;
    if s == {y} {
      assert IsMax(y, s);
    } else {
      MaxExists(s - {y});
      var m :| IsMax(m, s - {y});
      var w := if m < y then y else m;
      forall x | x in s
        ensures x <= w
      {
        if x != y { assert x in s - {y}; }
      }
      assert IsMax(w, s);
    }
  }

  lemma {:induction false} MinExists(s: set<nat>)
    requires s != {}
    ensures exists m :: IsMin(m, s)
    decreases s
  {
    var y :| y in s;
    if s == {y} {
      assert IsMin(y, s);
    } else {
      MinExists(s - {y});
      var m :| IsMin(m, s - {y});
      var w := if y < m then y else m;
      forall x | x in s
        ensures w <= x
      {
        if x != y { assert x in s - {y}; }
      }
      assert IsMin(w, s);
    }
  }

  function Max(s: set<nat>): (m: nat)
    requires s != {}
    ensures m in s
    ensures forall x :: x in s ==> x <= m
  {
    MaxExists(s);
    var m :| IsMax(m, s);
    m
  }

  function Min(s: set<nat>): (m: nat)
    requires s != {}
    ensures m in s
    ensures forall x :: x in s ==> m <= x
  {
    MinExists(s);
    var m :| IsMin(m, s);
    m
  }

  /** The key `SELECT ... ORDER BY id DESC LIMIT 1` reads, if any. */
  function Greatest<R>(m: map<nat, R>): (r: Option<nat>)
    ensures r.None? <==> m == map[]
    ensures r.Some? ==> r.value in m && forall k :: k in m ==> k <= r.value
  {
    if m == map[] then None
    else
      assert m.Keys != {} by { var k :| k in m; }
      Some(Max(m.Keys))
  }

  /** `INSERT` of one row: it is stored under the next AUTO_INCREMENT key. */
  function Append<R>(t: Table<R>, row: R): (t': Table<R>)
    requires KeysBelowNext(t)
    ensures KeysBelowNext(t')
    ensures t.next !in t.rows
    ensures t'.rows == t.rows[t.next := row]
    ensures t'.next > t.next
  {
    Table(t.rows[t.next := row], t.next + 1)
  }

  /** In a sequential store the row just appended is the one
      `ORDER BY id DESC LIMIT 1` reads back. */
  lemma AppendedIsGreatest<R>(t: Table<R>, row: R)
    requires KeysBelowNext(t)
    ensures Greatest(Append(t, row).rows) == Some(t.next)
  {
    var g := Greatest(Append(t, row).rows);
    assert t.next in Append(t, row).rows;
  }

  /** The rows a `WHERE keep(row)` clause selects. */
  function Where<R>(m: map<nat, R>, keep: R -> bool): (r: map<nat, R>)
    ensures forall k :: k in r <==> k in m && keep(m[k])
    ensures forall k :: k in r ==> r[k] == m[k]
  {
    map k | k in m && keep(m[k]) :: m[k]
  }

  /** Removing a present key removes one row. */
  lemma RemoveKeyCard<R>(m: map<nat, R>, k: nat)
    requires k in m
    ensures |m - {k}| == |m| - 1
  {
    assert (m - {k}).Keys == m.Keys - {k};
    assert |m.Keys - {k}| == |m.Keys| - 1;
  }

  /** Adding an absent key adds one row. */
  lemma AddKeyCard<R>(r: map<nat, R>, k: nat, v: R)
    requires k !in r
    ensures |r[k := v]| == |r| + 1
  {
    assert r[k := v].Keys == r.Keys + {k};
    assert |r.Keys + {k}| == |r.Keys| + 1;
  }

  /** Putting the least key in front of a prefix of the remaining keys
      keeps every kept key below every dropped key. */
  lemma {:induction false} MinKeepsOrder<R>(m: map<nat, R>, k: nat, r': map<nat, R>, r: map<nat, R>)
    requires k in m && forall x :: x in m ==> k <= x
    requires forall a, j :: a in r' && j in m - {k} && j !in r' ==> a < j
    requires r == r'[k := m[k]]
    ensures forall a, j :: a in r && j in m && j !in r ==> a < j
  {
    forall a, j | a in r && j in m && j !in r
      ensures a < j
    {
      assert j != k && j in m - {k} && j !in r';
      if a != k {
        assert a in r';
      }
    }
  }

  /** `LIMIT n` over a query without ORDER BY. SQL leaves open which rows
      are kept; this model keeps the `n` smallest keys (a primary-key scan). */
  function Limit<R>(m: map<nat, R>, n: nat): (r: map<nat, R>)
    ensures r.Keys <= m.Keys
    ensures forall k :: k in r ==> r[k] == m[k]
    ensures |r| == if |m| < n then |m| else n
    ensures forall k, j :: k in r && j in m && j !in r ==> k < j
    decreases n
  {
    if n == 0 || m == map[] then map[]
    else
      assert m.Keys != {} by { var k :| k in m; }
      var k := Min(m.Keys);
      var r' := Limit(m - {k}, n - 1);
      RemoveKeyCard(m, k);
      assert k !in r' by { assert r'.Keys <= (m - {k}).Keys; }
      AddKeyCard(r', k, m[k]);
      MinKeepsOrder(m, k, r', r'[k := m[k]]);
      r'[k := m[k]]
  }

  /** A `LIMIT` at least as large as the row count keeps every row. */
  lemma LimitKeepsAllWhenFew<R>(m: map<nat, R>, n: nat)
    requires |m| <= n
    ensures Limit(m, n) == m
  {
    var r := Limit(m, n);
    assert r.Keys <= m.Keys;
    assert |r.Keys| == |m.Keys|;
    forall k | k in m.Keys
      ensures k in r.Keys
    {
      if k !in r.Keys {
        assert r.Keys <= m.Keys - {k};
        assert |m.Keys - {k}| == |m.Keys| - 1;
        SubsetCard(r.Keys, m.Keys - {k});
      }
    }
    assert r.Keys == m.Keys;
  }

  lemma SubsetCard<T>(a: set<T>, b: set<T>)
    requires a <= b
    ensures |a| <= |b|
  {
    assert b == a + (b - a);
  }
}
