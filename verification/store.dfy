/** A record table of the crud modules, modelled as the sequence of its
    records in insertion order, and the SQL statements the crud functions
    issue against it: INSERT, SELECT ... WHERE ... first(), COUNT, DELETE,
    and SELECT ... ORDER BY ... OFFSET ... LIMIT. Every crud module of
    every domain instantiates these with its own key and order columns. */
module Store {
  import opened Wrappers
  import opened Text

  /** An ORDER BY key: a year column sorted descending, then text columns
      sorted ascending, in the order the statement lists them. Enum columns
      take part through their member name, the text SQLAlchemy stores. */
  datatype OrderKey = OrderKey(year: int, text: seq<string>)

  /** Ascending lexicographic order over a list of text columns. */
  predicate TextLe(a: seq<string>, b: seq<string>)
    decreases |a|
  {
    if |a| == 0 then true
    else if |b| == 0 then false
    else if a[0] != b[0] then StrLe(a[0], b[0])
    else TextLe(a[1..], b[1..])
  }

  /** `ORDER BY year DESC, text...`: `a` may come before `b`. */
  predicate KeyLe(a: OrderKey, b: OrderKey) {
    a.year > b.year || (a.year == b.year && TextLe(a.text, b.text))
  }

  lemma {:induction false} TextLeTotal(a: seq<string>, b: seq<string>)
    ensures TextLe(a, b) || TextLe(b, a)
    decreases |a|
  {
    if |a| > 0 && |b| > 0 {
      if a[0] != b[0] {
        StrLeTotal(a[0], b[0]);
      } else {
        TextLeTotal(a[1..], b[1..]);
      }
    }
  }

  lemma {:induction false} TextLeTrans(a: seq<string>, b: seq<string>, c: seq<string>)
    requires TextLe(a, b) && TextLe(b, c)
    ensures TextLe(a, c)
    decreases |a|
  {
    if |a| > 0 && |b| > 0 && |c| > 0 {
      if a[0] == b[0] && b[0] == c[0] {
        TextLeTrans(a[1..], b[1..], c[1..]);
      } else if a[0] == b[0] {
        assert StrLe(b[0], c[0]);
      } else if b[0] == c[0] {
        assert StrLe(a[0], b[0]);
      } else {
        StrLeTrans(a[0], b[0], c[0]);
        if a[0] == c[0] {
          StrLeAntisymmetric(a[0], b[0]);
        }
      }
    }
  }

  /** The listing order is total: any two records can be placed. */
  lemma KeyLeTotal(a: OrderKey, b: OrderKey)
    ensures KeyLe(a, b) || KeyLe(b, a)
  {
    TextLeTotal(a.text, b.text);
  }

  /** The listing order is transitive. */
  lemma KeyLeTrans(a: OrderKey, b: OrderKey, c: OrderKey)
    requires KeyLe(a, b) && KeyLe(b, c)
    ensures KeyLe(a, c)
  {
    if a.year == b.year && b.year == c.year {
      TextLeTrans(a.text, b.text, c.text);
    }
  }

  /** `s` is in the order the ORDER BY clause asks for. Records with equal
      keys may come in any order, as SQL leaves ties unspecified. */
  ghost predicate Sorted<R>(s: seq<R>, key: R -> OrderKey) {
    forall i, j :: 0 <= i < j < |s| ==> KeyLe(key(s[i]), key(s[j]))
  }

  /** Insertion of one record into a sorted listing. */
  function Insert<R>(x: R, s: seq<R>, key: R -> OrderKey): (r: seq<R>)
    requires Sorted(s, key)
    ensures Sorted(r, key)
    ensures multiset(r) == multiset(s) + multiset{x}
    decreases |s|
  {
    if |s| == 0 then [x]
    else if KeyLe(key(x), key(s[0])) then
      InsertFront(x, s, key);
      [x] + s
    else
      KeyLeTotal(key(x), key(s[0]));
      var t := Insert(x, s[1..], key);
      InsertBehind(x, s, t, key);
      [s[0]] + t
  }

  lemma InsertFront<R>(x: R, s: seq<R>, key: R -> OrderKey)
    requires Sorted(s, key) && |s| > 0 && KeyLe(key(x), key(s[0]))
    ensures Sorted([x] + s, key)
  {
    forall j | 0 <= j < |s|
      ensures KeyLe(key(x), key(s[j]))
    {
      if j > 0 {
        KeyLeTrans(key(x), key(s[0]), key(s[j]));
      }
    }
  }

  lemma InsertBehind<R>(x: R, s: seq<R>, t: seq<R>, key: R -> OrderKey)
    requires Sorted(s, key) && |s| > 0 && KeyLe(key(s[0]), key(x))
    requires Sorted(t, key) && multiset(t) == multiset(s[1..]) + multiset{x}
    ensures Sorted([s[0]] + t, key)
    ensures multiset([s[0]] + t) == multiset(s) + multiset{x}
  {
    forall k | 0 <= k < |t|
      ensures KeyLe(key(s[0]), key(t[k]))
    {
      assert t[k] in multiset(t);
      if t[k] != x {
        assert t[k] in multiset(s[1..]);
        var j :| 0 <= j < |s[1..]| && s[1..][j] == t[k];
        assert s[j + 1] == t[k];
      }
    }
    assert s == [s[0]] + s[1..];
  }

  /** The rows of the table in ORDER BY order. Records with equal keys keep
      their table order: one of the orders SQL allows, fixed so that pages
      can be stated row by row. */
  function SortBy<R>(s: seq<R>, key: R -> OrderKey): (r: seq<R>)
    ensures Sorted(r, key)
    ensures multiset(r) == multiset(s)
    decreases |s|
  {
    if |s| == 0 then []
    else
      assert s == [s[0]] + s[1..];
      Insert(s[0], SortBy(s[1..], key), key)
  }

  /** Python truthiness of an optional non-negative integer: None and 0 are false. */
  predicate Truthy(n: Option<nat>) {
    n.Some? && n.value != 0
  }

  /** The rows an OFFSET clause skips: `offset` when truthy, else none. */
  function Skipped(offset: Option<nat>): nat {
    if Truthy(offset) then offset.value else 0
  }

  /** How many of `n` rows survive OFFSET then LIMIT. */
  function PageSize(n: nat, limit: Option<nat>, offset: Option<nat>): nat {
    var rest := if Skipped(offset) <= n then n - Skipped(offset) else 0;
    if Truthy(limit) && limit.value < rest then limit.value else rest
  }

  lemma SliceIsSubMultiset<R>(s: seq<R>, a: nat, b: nat)
    requires a <= b <= |s|
    ensures multiset(s[a..b]) <= multiset(s)
  {
    assert s == s[..a] + s[a..b] + s[b..];
  }

  /** `if offset: stmt.offset(offset)` then `if limit: stmt.limit(limit)`:
      skip `offset` rows when it is truthy, then keep at most `limit` rows
      when it is truthy. */
  function Page<R>(s: seq<R>, limit: Option<nat>, offset: Option<nat>): (r: seq<R>)
    ensures |r| == PageSize(|s|, limit, offset)
    ensures forall k :: 0 <= k < |r| ==> r[k] == s[Skipped(offset) + k]
    ensures multiset(r) <= multiset(s)
  {
    var o := Skipped(offset);
    if o >= |s| then []
    else
      var e := o + PageSize(|s|, limit, offset);
      SliceIsSubMultiset(s, o, e);
      s[o..e]
  }

  /** Without a truthy limit or offset the whole listing comes back. */
  lemma PageUnpaged<R>(s: seq<R>, limit: Option<nat>, offset: Option<nat>)
    requires !Truthy(limit) && !Truthy(offset)
    ensures Page(s, limit, offset) == s
  {
  }

  /** Two consecutive pages of `n` rows make up the page of `2 * n` rows at
      the first one's offset: the offsets the views compute tile the listing. */
  lemma PagesTile<R>(s: seq<R>, n: nat, o: nat)
    requires n > 0
    ensures Page(s, Some(n), Some(o)) + Page(s, Some(n), Some(o + n)) == Page(s, Some(2 * n), Some(o))
  {
    var a := Page(s, Some(n), Some(o));
    var b := Page(s, Some(n), Some(o + n));
    var c := Page(s, Some(2 * n), Some(o));
    assert |a + b| == |c|;
    forall k | 0 <= k < |c|
      ensures (a + b)[k] == c[k]
    {
      if k < |a| {
        assert (a + b)[k] == a[k];
      } else {
        assert (a + b)[k] == b[k - |a|];
      }
    }
  }

  /** `ORDER BY ...` then OFFSET and LIMIT: the list endpoints, over the
      tie order `SortBy` fixes. */
  function List<R>(s: seq<R>, key: R -> OrderKey, limit: Option<nat>, offset: Option<nat>): (r: seq<R>)
    ensures Sorted(r, key)
    ensures multiset(r) <= multiset(s)
    ensures Truthy(limit) ==> |r| <= limit.value
    ensures !Truthy(limit) && !Truthy(offset) ==> multiset(r) == multiset(s)
    ensures |r| == PageSize(|s|, limit, offset)
    ensures forall k :: 0 <= k < |r| ==> r[k] == SortBy(s, key)[Skipped(offset) + k]
  {
    var sorted := SortBy(s, key);
    var r := Page(sorted, limit, offset);
    if !Truthy(limit) && !Truthy(offset) then
      PageUnpaged(sorted, limit, offset);
      r
    else r
  }

  /** The listing's pages tile it: the pages of `n` records at offsets `o`
      and `o + n` together are the page of `2 * n` records at `o`. This holds
      for the one tie order `SortBy` fixes; a database that breaks ties
      differently from one query to the next need not tile. */
  lemma ListPagesTile<R>(s: seq<R>, key: R -> OrderKey, n: nat, o: nat)
    requires n > 0
    ensures List(s, key, Some(n), Some(o)) + List(s, key, Some(n), Some(o + n)) == List(s, key, Some(2 * n), Some(o))
  {
    PagesTile(SortBy(s, key), n, o);
  }

  /** `SELECT` with no ORDER BY: every record, in an order SQL leaves open. */
  function ListAll<R>(s: seq<R>): (r: seq<R>)
    ensures multiset(r) == multiset(s)
  {
    s
  }

  /** `WHERE p`: the records that satisfy `p`, in table order. */
  function Filter<R>(s: seq<R>, p: R -> bool): (r: seq<R>)
    ensures forall k :: 0 <= k < |r| ==> p(r[k])
    ensures forall k :: 0 <= k < |s| && p(s[k]) ==> s[k] in r
    ensures multiset(r) <= multiset(s)
    ensures forall k :: 0 <= k < |s| ==> multiset(r)[s[k]] == (if p(s[k]) then multiset(s)[s[k]] else 0)
    ensures |r| <= |s|
    decreases |s|
  {
    if |s| == 0 then []
    else
      assert s == [s[0]] + s[1..];
      (if p(s[0]) then [s[0]] else []) + Filter(s[1..], p)
  }

  /** `WHERE p ORDER BY ...` then OFFSET and LIMIT: the by-category listings. */
  function ListWhere<R>(s: seq<R>, p: R -> bool, key: R -> OrderKey, limit: Option<nat>, offset: Option<nat>): (r: seq<R>)
    ensures Sorted(r, key)
    ensures forall k :: 0 <= k < |r| ==> p(r[k]) && r[k] in s
    ensures Truthy(limit) ==> |r| <= limit.value
    ensures !Truthy(limit) && !Truthy(offset) ==> multiset(r) == multiset(Filter(s, p))
    ensures |r| == PageSize(|Filter(s, p)|, limit, offset)
    ensures forall k :: 0 <= k < |r| ==> r[k] == SortBy(Filter(s, p), key)[Skipped(offset) + k]
  {
    var f := Filter(s, p);
    var r := List(f, key, limit, offset);
    forall k | 0 <= k < |r|
      ensures p(r[k]) && r[k] in s
    {
      assert r[k] in multiset(f);
      assert r[k] in multiset(s);
    }
    r
  }

  /** `SELECT count(id) WHERE p`. */
  function CountWhere<R>(s: seq<R>, p: R -> bool): (n: nat)
    ensures n <= |s|
    ensures n == |s| <==> forall k :: 0 <= k < |s| ==> p(s[k])
    decreases |s|
  {
    if |s| == 0 then 0
    else (if p(s[0]) then 1 else 0) + CountWhere(s[1..], p)
  }

  /** The count agrees with the listing: counting the matches is the size of
      the filtered table. */
  lemma {:induction false} CountIsFilterSize<R>(s: seq<R>, p: R -> bool)
    ensures CountWhere(s, p) == |Filter(s, p)|
    decreases |s|
  {
    if |s| > 0 {
      CountIsFilterSize(s[1..], p);
    }
  }

  /** Appending records that fail the predicate leaves the count unchanged. */
  lemma {:induction false} CountAppendNone<R>(a: seq<R>, b: seq<R>, p: R -> bool)
    requires forall k :: 0 <= k < |b| ==> !p(b[k])
    ensures CountWhere(a + b, p) == CountWhere(a, p)
    decreases |a| + |b|
  {
    if |a| == 0 {
      assert a + b == b;
      if |b| > 0 {
        CountAppendNone(a, b[1..], p);
        assert a + b[1..] == b[1..];
      }
    } else {
      assert (a + b)[0] == a[0] && (a + b)[1..] == a[1..] + b;
      CountAppendNone(a[1..], b, p);
    }
  }

  /** No record passes the predicate, so nothing is selected. */
  lemma {:induction false} FilterNone<R>(b: seq<R>, p: R -> bool)
    requires forall k :: 0 <= k < |b| ==> !p(b[k])
    ensures Filter(b, p) == []
    decreases |b|
  {
    if |b| > 0 {
      FilterNone(b[1..], p);
    }
  }

  /** Appending records that fail the predicate leaves the filtered table
      unchanged. */
  lemma {:induction false} FilterAppendNone<R>(a: seq<R>, b: seq<R>, p: R -> bool)
    requires forall k :: 0 <= k < |b| ==> !p(b[k])
    ensures Filter(a + b, p) == Filter(a, p)
    decreases |a|
  {
    if |a| == 0 {
      assert a + b == b;
      FilterNone(b, p);
    } else {
      assert (a + b)[0] == a[0] && (a + b)[1..] == a[1..] + b;
      FilterAppendNone(a[1..], b, p);
    }
  }

  /** `SELECT ... WHERE <key columns> = k` then `.first()`: some record with
      that key, if there is one. */
  function FindKey<R, K(==)>(s: seq<R>, key: R -> K, k: K): (r: Option<R>)
    ensures r.Some? <==> exists i :: 0 <= i < |s| && key(s[i]) == k
    ensures r.Some? ==> r.value in s && key(r.value) == k
    decreases |s|
  {
    if |s| == 0 then None
    else if key(s[0]) == k then Some(s[0])
    else
      var r := FindKey(s[1..], key, k);
      assert forall i :: 1 <= i < |s| ==> s[i] == s[1..][i - 1];
      r
  }

  /** A record with key `k` is present. */
  ghost predicate HasKey<R, K>(s: seq<R>, key: R -> K, k: K) {
    exists i :: 0 <= i < |s| && key(s[i]) == k
  }

  /** `session.add(rec); session.commit()`: the table gains exactly `rec`. */
  function Create<R>(s: seq<R>, rec: R): (r: seq<R>)
    ensures |r| == |s| + 1 && r[..|s|] == s && r[|s|] == rec
    ensures multiset(r) == multiset(s) + multiset{rec}
  {
    s + [rec]
  }

  /** After a create, the key lookup finds a record with the created record's key. */
  lemma CreateThenFind<R, K>(s: seq<R>, rec: R, key: R -> K)
    ensures FindKey(Create(s, rec), key, key(rec)).Some?
    ensures !HasKey(s, key, key(rec)) ==> FindKey(Create(s, rec), key, key(rec)) == Some(rec)
  {
    var r := Create(s, rec);
    assert key(r[|s|]) == key(rec);
    if !HasKey(s, key, key(rec)) {
      FindAfterMisses(s, rec, key);
    }
  }

  lemma {:induction false} FindAfterMisses<R, K>(s: seq<R>, rec: R, key: R -> K)
    requires !HasKey(s, key, key(rec))
    ensures FindKey(s + [rec], key, key(rec)) == Some(rec)
    decreases |s|
  {
    if |s| > 0 {
      assert key(s[0]) != key(rec);
      assert (s + [rec])[1..] == s[1..] + [rec];
      forall i | 0 <= i < |s[1..]|
        ensures key(s[1..][i]) != key(rec)
      {
        assert s[1..][i] == s[i + 1];
      }
      FindAfterMisses(s[1..], rec, key);
    }
  }

  /** `DELETE FROM table`: no record remains. */
  function Clear<R>(s: seq<R>): (r: seq<R>)
    ensures |r| == 0
  {
    []
  }
}
