/**
 * Database tables as the ORM sees them: a sequence of rows in primary-key
 * (insertion) order, each row an auto-increment id and the record it stores.
 * The queryset operations the application uses (get by primary key, filter,
 * count, exists, `.get(...)` with its three outcomes, update and delete by
 * primary key, insert with a fresh id) are defined here once.
 */
module Tables {
  import opened Wrappers

  datatype Row<T> = Row(id: nat, val: T)

  type Table<T> = seq<Row<T>>

  /** The primary key is unique. */
  predicate UniqueIds<T>(t: Table<T>) {
    forall i, j :: 0 <= i < j < |t| ==> t[i].id != t[j].id
  }

  predicate HasId<T>(t: Table<T>, id: nat) {
    exists i :: 0 <= i < |t| && t[i].id == id
  }

  /** `Model.objects.get(pk=id)`, with DoesNotExist as None. */
  function Get<T>(t: Table<T>, id: nat): (r: Option<T>)
    ensures r.Some? <==> HasId(t, id)
    ensures r.Some? ==> exists i :: 0 <= i < |t| && t[i] == Row(id, r.value)
    ensures UniqueIds(t) ==> forall i :: 0 <= i < |t| && t[i].id == id ==> r == Some(t[i].val)
  {
    if |t| == 0 then None
    else if t[0].id == id then Some(t[0].val)
    else
      var r := Get(t[1..], id);
      assert forall i :: 1 <= i < |t| ==> t[i] == t[1..][i - 1];
      r
  }

  /** An id larger than every id in use: the next value of the auto-increment key. */
  function NextId<T>(t: Table<T>): (id: nat)
    ensures forall i :: 0 <= i < |t| ==> t[i].id < id
    ensures !HasId(t, id)
  {
    if |t| == 0 then 1
    else
      var m := NextId(t[1..]);
      assert forall i :: 1 <= i < |t| ==> t[i] == t[1..][i - 1];
      if t[0].id >= m then t[0].id + 1 else m
  }

  /** INSERT: the new row goes last, under a fresh id. */
  function Insert<T>(t: Table<T>, v: T): (r: Table<T>)
    ensures |r| == |t| + 1 && r[..|t|] == t && r[|t|] == Row(NextId(t), v)
    ensures UniqueIds(t) ==> UniqueIds(r)
  {
    t + [Row(NextId(t), v)]
  }

  /** UPDATE ... WHERE id = id: the row keeps its place, only its record changes. */
  function Update<T>(t: Table<T>, id: nat, v: T): (r: Table<T>)
    ensures |r| == |t|
    ensures forall i :: 0 <= i < |t| ==> r[i].id == t[i].id
    ensures forall i :: 0 <= i < |t| ==> r[i].val == if t[i].id == id then v else t[i].val
    ensures UniqueIds(t) ==> UniqueIds(r)
  {
    seq(|t|, i requires 0 <= i < |t| => if t[i].id == id then Row(id, v) else t[i])
  }

  /** `queryset.filter(p)`: the rows satisfying p, in table order. */
  function Filter<T(!new)>(t: Table<T>, p: Row<T> -> bool): (r: Table<T>)
    ensures |r| <= |t|
    ensures forall x :: x in r <==> x in t && p(x)
  {
    if |t| == 0 then []
    else
      assert t == [t[0]] + t[1..];
      if p(t[0]) then [t[0]] + Filter(t[1..], p) else Filter(t[1..], p)
  }

  /** Filtering keeps the primary key unique. */
  lemma {:induction false} FilterUnique<T(!new)>(t: Table<T>, p: Row<T> -> bool)
    requires UniqueIds(t)
    ensures UniqueIds(Filter(t, p))
  {
    if |t| > 0 {
      FilterUnique(t[1..], p);
      var rest := Filter(t[1..], p);
      forall x | x in rest ensures x.id != t[0].id {
        var k :| 0 <= k < |t[1..]| && t[1..][k] == x;
        assert t[k + 1] == x;
      }
    }
  }

  /** A filter keeps every copy of a row it accepts and no copy of one it rejects. */
  lemma {:induction false} FilterMultiplicity<T(!new)>(t: Table<T>, p: Row<T> -> bool, x: Row<T>)
    ensures multiset(Filter(t, p))[x] == if p(x) then multiset(t)[x] else 0
  {
    if |t| > 0 {
      FilterMultiplicity(t[1..], p, x);
      assert t == [t[0]] + t[1..];
      assert multiset(t) == multiset{t[0]} + multiset(t[1..]);
    }
  }

  /** Filtering tables with the same rows, counted with multiplicity, gives the same rows. */
  lemma FilterSameMultiset<T(!new)>(s: Table<T>, t: Table<T>, p: Row<T> -> bool)
    requires multiset(s) == multiset(t)
    ensures multiset(Filter(s, p)) == multiset(Filter(t, p))
  {
    forall x ensures multiset(Filter(s, p))[x] == multiset(Filter(t, p))[x] {
      FilterMultiplicity(s, p, x);
      FilterMultiplicity(t, p, x);
    }
  }

  /** A row appended to a table lands at the end of every filter that keeps it. */
  lemma {:induction false} FilterAppend<T(!new)>(t: Table<T>, x: Row<T>, p: Row<T> -> bool)
    ensures Filter(t + [x], p) == Filter(t, p) + (if p(x) then [x] else [])
  {
    if |t| == 0 {
      assert t + [x] == [x];
      assert Filter([x][1..], p) == [];
    } else {
      FilterAppend(t[1..], x, p);
      assert (t + [x])[1..] == t[1..] + [x];
    }
  }

  /** Chained `.filter(p).filter(q)` is one filter on the conjunction. */
  lemma {:induction false} FilterCompose<T(!new)>(t: Table<T>, p: Row<T> -> bool, q: Row<T> -> bool, pq: Row<T> -> bool)
    requires forall x :: pq(x) == (p(x) && q(x))
    ensures Filter(Filter(t, p), q) == Filter(t, pq)
  {
    if |t| > 0 {
      FilterCompose(t[1..], p, q, pq);
      if p(t[0]) {
        assert ([t[0]] + Filter(t[1..], p))[1..] == Filter(t[1..], p);
      }
    }
  }

  /** `queryset.filter(p).count()`. */
  function Count<T(!new)>(t: Table<T>, p: Row<T> -> bool): (n: nat)
    ensures n <= |t|
    ensures n == 0 <==> forall i :: 0 <= i < |t| ==> !p(t[i])
    ensures n == |Filter(t, p)|
  {
    var r := Filter(t, p);
    assert forall i :: 0 <= i < |t| && p(t[i]) ==> t[i] in r;
    assert |r| > 0 ==> r[0] in t;
    |r|
  }

  /** `queryset.filter(p).exists()`. */
  predicate Exists<T>(t: Table<T>, p: Row<T> -> bool) {
    exists i :: 0 <= i < |t| && p(t[i])
  }

  /** The three outcomes of `Model.objects.get(...)`. */
  datatype Lookup<T> = DoesNotExist | Found(row: Row<T>) | MultipleObjectsReturned

  function GetWhere<T(!new)>(t: Table<T>, p: Row<T> -> bool): (r: Lookup<T>)
    ensures r.DoesNotExist? <==> !Exists(t, p)
    ensures r.Found? ==> r.row in t && p(r.row)
    ensures r.Found? && UniqueIds(t) ==> forall i :: 0 <= i < |t| && p(t[i]) ==> t[i] == r.row
    ensures r.MultipleObjectsReturned? && UniqueIds(t) ==>
              exists i, j :: 0 <= i < j < |t| && p(t[i]) && p(t[j])
  {
    var m := Filter(t, p);
    assert forall i :: 0 <= i < |t| && p(t[i]) ==> t[i] in m;
    if |m| == 0 then DoesNotExist
    else if |m| == 1 then
      assert m[0] in t;
      Found(m[0])
    else
      assert m[0] in t && m[1] in t;
      assert UniqueIds(t) ==> exists i, j :: 0 <= i < j < |t| && p(t[i]) && p(t[j]) by {
        if UniqueIds(t) {
          var i :| 0 <= i < |t| && t[i] == m[0];
          var j :| 0 <= j < |t| && t[j] == m[1];
          FilterUnique(t, p);
          assert m[0].id != m[1].id;
          if i < j { assert p(t[i]) && p(t[j]); } else { assert j < i && p(t[j]) && p(t[i]); }
        }
      }
      MultipleObjectsReturned
  }

  /** DELETE ... WHERE id = id. */
  function Delete<T(!new)>(t: Table<T>, id: nat): (r: Table<T>)
    ensures forall x :: x in r <==> x in t && x.id != id
    ensures UniqueIds(t) ==> UniqueIds(r)
    ensures !HasId(r, id)
  {
    var r := Filter(t, (x: Row<T>) => x.id != id);
    assert UniqueIds(t) ==> UniqueIds(r) by {
      if UniqueIds(t) { FilterUnique(t, (x: Row<T>) => x.id != id); }
    }
    assert forall i :: 0 <= i < |r| ==> r[i] in r;
    r
  }
}
