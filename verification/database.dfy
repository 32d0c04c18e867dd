/** The persisted tables the services work on, in memory: one map per
    table keyed by the row id, and the next value of each identity column.
    A service call that ends in `SaveChangesAsync` is a method that
    reassigns these maps. */
module Database {
  import opened Common
  import opened OfferModel
  import opened CompanyModel

  class Db {
    var companies: map<int, Company>
    var users: map<string, User>
    var offers: map<int, Offer>
    var products: map<int, Product>
    var customers: map<int, Customer>
    var payments: map<int, Payment>
    var nextOfferId: int
    var nextProductId: int
    var nextCustomerId: int
    var nextPaymentId: int

    /** Every row is stored under its own id, and identity columns only
        hand out positive ids that are not yet in use. */
    ghost predicate Valid()
      reads this
    {
      && (forall k :: k in companies ==> companies[k].id == k)
      && (forall k :: k in users ==> users[k].id == k)
      && (forall k :: k in offers ==> offers[k].id == k && 0 < k < nextOfferId)
      && (forall k :: k in products ==> products[k].id == k && 0 < k < nextProductId)
      && (forall k :: k in customers ==> customers[k].id == k && 0 < k < nextCustomerId)
      && (forall k :: k in payments ==> payments[k].id == k && 0 < k < nextPaymentId)
      && 0 < nextOfferId && 0 < nextProductId && 0 < nextCustomerId && 0 < nextPaymentId
    }

    constructor ()
      ensures Valid()
      ensures companies == map[] && users == map[] && offers == map[]
      ensures products == map[] && customers == map[] && payments == map[]
    {
      companies, users, offers := map[], map[], map[];
      products, customers, payments := map[], map[], map[];
      nextOfferId, nextProductId, nextCustomerId, nextPaymentId := 1, 1, 1, 1;
    }
  }

  /** Writing a company row back under its own id. */
  method SaveCompany(db: Db, c: Company)
    requires db.Valid()
    modifies db`companies
    ensures db.Valid()
    ensures db.companies == old(db.companies)[c.id := c]
  {
    db.companies := db.companies[c.id := c];
  }

  /** Appending the row of a key not yet listed keeps a listing of an
      injective table free of repeats. */
  lemma FreshRowKeepsDistinct<K, V>(m: map<K, V>, keys: seq<K>, rows: seq<V>, kept: set<K>, k: K)
    requires Injective(m) && Distinct(rows)
    requires kept <= m.Keys && k in m && k !in kept && |keys| == |rows|
    requires forall i :: 0 <= i < |keys| ==> keys[i] in kept && m[keys[i]] == rows[i]
    ensures Distinct(rows + [m[k]])
  {
    assert m[k] !in rows by {
      forall i | 0 <= i < |rows| ensures rows[i] != m[k] {
        assert keys[i] != k;
      }
    }
    AppendFreshKeepsDistinct(rows, m[k]);
  }

  lemma {:induction false} AppendFreshKeepsDistinct<V>(rows: seq<V>, x: V)
    requires Distinct(rows) && x !in rows
    ensures Distinct(rows + [x])
  {
    if rows != [] {
      assert (rows + [x])[1..] == rows[1..] + [x];
      AppendFreshKeepsDistinct(rows[1..], x);
    }
  }

  /** A key under which a stored row is held. */
  lemma KeyOf<K, V>(m: map<K, V>, v: V) returns (k: K)
    requires v in m.Values
    ensures k in m && m[k] == v
  {
    k :| k in m && m[k] == v;
  }

  /** No two keys hold the same row, as when every row carries its own
      key. */
  ghost predicate Injective<K, V>(m: map<K, V>)
  {
    forall j, k :: j in m && k in m && m[j] == m[k] ==> j == k
  }

  /** No row occurs twice. */
  predicate Distinct<V(==)>(rows: seq<V>)
  {
    rows == [] || (rows[0] !in rows[1..] && Distinct(rows[1..]))
  }

  /** A sequence has no repeated row exactly when it holds each row at
      most once as a multiset. */
  lemma {:induction false} DistinctAsMultiset<V>(rows: seq<V>)
    ensures Distinct(rows) <==> forall x :: multiset(rows)[x] <= 1
  {
    if rows != [] {
      DistinctAsMultiset(rows[1..]);
      assert rows == [rows[0]] + rows[1..];
      assert multiset(rows) == multiset{rows[0]} + multiset(rows[1..]);
      if forall x :: multiset(rows)[x] <= 1 {
        assert multiset(rows)[rows[0]] <= 1;
        assert multiset(rows[1..])[rows[0]] == 0;
        forall x ensures multiset(rows[1..])[x] <= 1 {
          assert multiset(rows)[x] <= 1;
        }
      }
    }
  }

  /** Reordering keeps a sequence free of repeated rows. */
  lemma PermutationKeepsDistinct<V>(a: seq<V>, b: seq<V>)
    requires multiset(a) == multiset(b) && Distinct(a)
    ensures Distinct(b)
  {
    DistinctAsMultiset(a);
    DistinctAsMultiset(b);
  }

  /** `FirstOrDefaultAsync(r => r.Id == id && r.CompanyId == companyId)`
      on a table whose rows `owner` assigns to companies: the row with this
      id, provided it belongs to the company. */
  function FindOwned<V>(m: map<int, V>, owner: V -> int, id: int, companyId: int): (r: Option<V>)
    ensures r.Some? <==> id in m && owner(m[id]) == companyId
    ensures r.Some? ==> r.value == m[id]
  {
    if id in m && owner(m[id]) == companyId then Some(m[id]) else None
  }

  /** The keys of the rows that pass `keep`. */
  ghost function KeysWhere<K, V>(m: map<K, V>, keep: V -> bool): set<K>
  {
    set k | k in m && keep(m[k])
  }

  /** The rows that `owner` does not assign to `companyId` are the same in
      both tables: a command scoped to one company leaves the others alone. */
  ghost predicate OthersUntouched<K, V>(before: map<K, V>, after: map<K, V>, owner: V -> int, companyId: int)
  {
    && (forall k :: k in before && owner(before[k]) != companyId ==> k in after && after[k] == before[k])
    && (forall k :: k in after && owner(after[k]) != companyId ==> k in before && before[k] == after[k])
  }

  /** The state of a table scan: the keys `done` have been read and
      `todo` are still to read; `kept` are the read keys whose rows pass
      `keep`, and `rows` lists their rows once each, in the order `keys`
      reads them (without repeats when the table is injective). */
  ghost predicate Scanned<K, V>(m: map<K, V>, keep: V -> bool, todo: set<K>, done: set<K>,
                                kept: set<K>, keys: seq<K>, rows: seq<V>)
  {
    && todo + done == m.Keys && todo !! done
    && kept <= done
    && (forall k :: k in done ==> (k in kept <==> keep(m[k])))
    && |keys| == |rows| == |kept|
    && (forall i :: 0 <= i < |keys| ==> keys[i] in kept && m[keys[i]] == rows[i])
    && (forall k :: k in kept ==> k in keys)
    && (Injective(m) ==> Distinct(rows))
  }

  /** Reading one more key keeps the scan state. */
  lemma ScanStep<K, V>(m: map<K, V>, keep: V -> bool, todo: set<K>, done: set<K>,
                       kept: set<K>, keys: seq<K>, rows: seq<V>, k: K)
    requires Scanned(m, keep, todo, done, kept, keys, rows)
    requires k in todo
    ensures keep(m[k]) ==> Scanned(m, keep, todo - {k}, done + {k}, kept + {k}, keys + [k], rows + [m[k]])
    ensures !keep(m[k]) ==> Scanned(m, keep, todo - {k}, done + {k}, kept, keys, rows)
  {
    if keep(m[k]) {
      if Injective(m) {
        FreshRowKeepsDistinct(m, keys, rows, kept, k);
      }
      assert k !in kept;
    }
  }

  /** `Where(keep).ToListAsync()` over a table: every row that passes,
      each exactly once, in the order the table is read. */
  method SelectWhere<K, V(==)>(m: map<K, V>, keep: V -> bool) returns (rows: seq<V>)
    ensures forall v :: v in rows <==> v in m.Values && keep(v)
    ensures |rows| == |KeysWhere(m, keep)|
    ensures Injective(m) ==> Distinct(rows)
  {
    rows := [];
    var todo := m.Keys;
    ghost var done: set<K> := {};
    ghost var kept: set<K> := {};
    ghost var keys: seq<K> := [];
    while todo != {}
      invariant Scanned(m, keep, todo, done, kept, keys, rows)
      decreases |todo|
    {
      var k :| k in todo;
      ScanStep(m, keep, todo, done, kept, keys, rows, k);
      if keep(m[k]) {
        rows := rows + [m[k]];
        kept := kept + {k};
        keys := keys + [k];
      }
      todo := todo - {k};
      done := done + {k};
    }
    ScanDone(m, keep, done, kept, keys, rows);
  }

  /** A scan that has read every key lists exactly the passing rows. */
  lemma ScanDone<K, V>(m: map<K, V>, keep: V -> bool, done: set<K>, kept: set<K>, keys: seq<K>, rows: seq<V>)
    requires Scanned(m, keep, {}, done, kept, keys, rows)
    ensures forall v :: v in rows <==> v in m.Values && keep(v)
    ensures |rows| == |KeysWhere(m, keep)|
    ensures Injective(m) ==> Distinct(rows)
  {
    assert done == m.Keys;
    assert kept == KeysWhere(m, keep);
    forall v ensures v in rows <==> v in m.Values && keep(v) {
      if v in rows {
        var i :| 0 <= i < |rows| && rows[i] == v;
        assert keys[i] in m && m[keys[i]] == v;
      }
      if v in m.Values && keep(v) {
        var k := KeyOf(m, v);
        assert k in keys;
        var i :| 0 <= i < |keys| && keys[i] == k;
        assert rows[i] == v;
      }
    }
  }

  /** Counting the rows of a listing that pass a test counts the keys of
      the table whose rows pass it, when the listing holds each row of the
      table exactly once. */
  lemma {:induction false} FilterCountIsKeyCount<K, V>(m: map<K, V>, rows: seq<V>, keep: V -> bool)
    requires Injective(m) && Distinct(rows)
    requires forall v :: v in rows <==> v in m.Values
    ensures |Filter(rows, keep)| == |KeysWhere(m, keep)|
    decreases |rows|
  {
    if rows == [] {
      assert KeysWhere(m, keep) == {};
    } else {
      var v := rows[0];
      assert v in m.Values;
      var k :| k in m && m[k] == v;
      var rest := m - {k};
      forall u ensures u in rows[1..] <==> u in rest.Values {
        if u in rows[1..] {
          var i :| 1 <= i < |rows| && rows[i] == u;
          assert u != v && u in m.Values;
          var j :| j in m && m[j] == u;
          assert j != k && rest[j] == u;
        }
        if u in rest.Values {
          var j :| j in rest && rest[j] == u;
          assert j in m && m[j] == u && j != k;
          assert u != v && u in rows;
        }
      }
      FilterCountIsKeyCount(rest, rows[1..], keep);
      var extra: set<K> := if keep(v) then {k} else {};
      assert KeysWhere(m, keep) == KeysWhere(rest, keep) + extra;
      assert k !in KeysWhere(rest, keep);
    }
  }

  /** A key of `keys` whose row ranks highest. */
  ghost function ArgMax<K, V>(keys: set<K>, m: map<K, V>, rank: V -> int): (r: K)
    requires keys != {} && keys <= m.Keys
    ensures r in keys
    ensures forall j :: j in keys ==> rank(m[j]) <= rank(m[r])
    decreases |keys|
  {
    var k :| k in keys;
    var rest := keys - {k};
    if rest == {} then
      assert forall j :: j in keys ==> j in rest || j == k;
      k
    else
      var r := ArgMax(rest, m, rank);
      assert forall j :: j in keys ==> j in rest || j == k;
      if rank(m[k]) > rank(m[r]) then k else r
  }

  /** A key whose row passes `keep` and ranks highest among those that
      do, if any row passes. */
  ghost function HighestWhere<K, V>(m: map<K, V>, keep: V -> bool, rank: V -> int): (r: Option<K>)
    ensures r.None? <==> forall k :: k in m ==> !keep(m[k])
    ensures r.Some? ==> r.value in m && keep(m[r.value])
    ensures r.Some? ==> forall k :: k in m && keep(m[k]) ==> rank(m[k]) <= rank(m[r.value])
  {
    var keys := KeysWhere(m, keep);
    assert forall k :: k in m && keep(m[k]) ==> k in keys;
    if keys == {} then None else Some(ArgMax(keys, m, rank))
  }

  /** `best` ranks highest among the keys `seen` whose row passes `keep`,
      or is None when none of them does. */
  ghost predicate HighestAmong<K, V>(best: Option<K>, seen: set<K>, m: map<K, V>, keep: V -> bool, rank: V -> int)
    requires seen <= m.Keys
  {
    match best
    case None => forall k :: k in seen ==> !keep(m[k])
    case Some(b) =>
      && b in seen && keep(m[b])
      && forall k :: k in seen && keep(m[k]) ==> rank(m[k]) <= rank(m[b])
  }

  /** `Where(keep).OrderByDescending(rank).FirstOrDefault()`: the key of a
      highest-ranked row that passes `keep`. */
  method FindHighestWhere<K, V>(m: map<K, V>, keep: V -> bool, rank: V -> int) returns (best: Option<K>)
    ensures best.None? <==> forall k :: k in m ==> !keep(m[k])
    ensures best.Some? ==> best.value in m && keep(m[best.value])
    ensures best.Some? ==> forall k :: k in m && keep(m[k]) ==> rank(m[k]) <= rank(m[best.value])
  {
    var todo := m.Keys;
    ghost var done: set<K> := {};
    best := None;
    while todo != {}
      invariant todo + done == m.Keys && todo !! done
      invariant HighestAmong(best, done, m, keep, rank)
      decreases |todo|
    {
      var k :| k in todo;
      if keep(m[k]) && (best.None? || rank(m[best.value]) < rank(m[k])) {
        best := Some(k);
      }
      todo := todo - {k};
      done := done + {k};
    }
    assert done == m.Keys;
  }
}
