/**
 * Python dictionaries keep their keys in insertion order, and several parts
 * of the plugin depend on that order (sign ids, the order of emitted Vim
 * commands, which of two conflicting keymaps wins). A dictionary is modelled
 * as an association list with distinct keys, in insertion order.
 */
module Dict {
  import opened Common

  type Dict<K, V> = seq<(K, V)>

  function Keys<K, V>(d: Dict<K, V>): (ks: seq<K>)
    ensures |ks| == |d|
    ensures forall i {:trigger ks[i]} :: 0 <= i < |d| ==> ks[i] == d[i].0
  {
    if d == [] then [] else [d[0].0] + Keys(d[1..])
  }

  /** No key occurs twice. */
  predicate Unique<K(==,!new), V>(d: Dict<K, V>)
  {
    forall i, j :: 0 <= i < j < |d| ==> d[i].0 != d[j].0
  }

  /** `d.get(k)`. */
  function Get<K(==,!new), V>(d: Dict<K, V>, k: K): (r: Option<V>)
    ensures r.Some? <==> k in Keys(d)
  {
    if d == [] then None
    else if d[0].0 == k then Some(d[0].1)
    else Get(d[1..], k)
  }

  /** `d.get(k, default)`. */
  function GetOr<K(==,!new), V>(d: Dict<K, V>, k: K, default: V): V
  {
    match Get(d, k)
    case Some(v) => v
    case None => default
  }

  /** `d[k] = v`: an existing key keeps its position, a new key goes last. */
  function Put<K(==,!new), V>(d: Dict<K, V>, k: K, v: V): (r: Dict<K, V>)
    ensures Get(r, k) == Some(v)
    ensures forall k' :: k' != k ==> Get(r, k') == Get(d, k')
    ensures Keys(r) == if k in Keys(d) then Keys(d) else Keys(d) + [k]
  {
    if d == [] then [(k, v)]
    else if d[0].0 == k then [(k, v)] + d[1..]
    else
      var rest := Put(d[1..], k, v);
      var r := [d[0]] + rest;
      assert r[1..] == rest;
      assert Keys(r) == [d[0].0] + Keys(rest);
      r
  }

  lemma PutUnique<K(!new), V>(d: Dict<K, V>, k: K, v: V)
    requires Unique(d)
    ensures Unique(Put(d, k, v))
  {
    var r := Put(d, k, v);
    var ks, dks := Keys(r), Keys(d);
    forall i, j | 0 <= i < j < |r| ensures r[i].0 != r[j].0 {
      assert ks[i] == r[i].0 && ks[j] == r[j].0;
      if j < |d| {
        assert ks[i] == dks[i] == d[i].0 && ks[j] == dks[j] == d[j].0;
      } else {
        assert k !in dks && ks[j] == k && ks[i] == dks[i];
      }
    }
  }

  /** `del d[k]` for a key that is present. */
  function Remove<K(==,!new), V>(d: Dict<K, V>, k: K): (r: Dict<K, V>)
    requires Unique(d)
    ensures forall x :: x in r ==> x in d
    ensures Get(r, k) == None
    ensures forall k' :: k' != k ==> Get(r, k') == Get(d, k')
    ensures k in Keys(d) ==> |r| == |d| - 1
    ensures k !in Keys(d) ==> r == d
  {
    if d == [] then []
    else if d[0].0 == k then
      assert k !in Keys(d[1..]);
      d[1..]
    else
      var rest := Remove(d[1..], k);
      var r := [d[0]] + rest;
      assert r[1..] == rest;
      r
  }

  /** Removing a key keeps the others distinct. */
  lemma {:induction false} RemoveUnique<K(!new), V>(d: Dict<K, V>, k: K)
    requires Unique(d)
    ensures Unique(Remove(d, k))
    decreases |d|
  {
    if d != [] && d[0].0 != k {
      var rest := Remove(d[1..], k);
      RemoveUnique(d[1..], k);
      assert Remove(d, k) == [d[0]] + rest;
      forall j | 0 <= j < |rest| ensures rest[j].0 != d[0].0 {
        assert rest[j] in d[1..];
        var b :| 0 <= b < |d[1..]| && d[1..][b] == rest[j];
        assert d[b + 1] == rest[j];
      }
    }
  }

  /** `try: d[k].append(x) except KeyError: d[k] = [x]`. */
  function Append<K(==,!new), X>(d: Dict<K, seq<X>>, k: K, x: X): (r: Dict<K, seq<X>>)
    ensures Get(r, k) == Some(if k in Keys(d) then Get(d, k).value + [x] else [x])
    ensures forall k' :: k' != k ==> Get(r, k') == Get(d, k')
    ensures Keys(r) == if k in Keys(d) then Keys(d) else Keys(d) + [k]
    ensures Unique(d) ==> Unique(r)
  {
    match Get(d, k)
    case Some(xs) =>
      assert Unique(d) ==> Unique(Put(d, k, xs + [x])) by {
        if Unique(d) { PutUnique(d, k, xs + [x]); }
      }
      Put(d, k, xs + [x])
    case None =>
      assert Unique(d) ==> Unique(Put(d, k, [x])) by {
        if Unique(d) { PutUnique(d, k, [x]); }
      }
      Put(d, k, [x])
  }

  /** Two dictionaries with the same keys in the same order and the same
      lookups are the same dictionary. */
  lemma {:induction false} Extensional<K(!new), V>(d: Dict<K, V>, e: Dict<K, V>)
    requires Unique(d) && Unique(e)
    requires Keys(d) == Keys(e)
    requires forall k :: Get(d, k) == Get(e, k)
    ensures d == e
    decreases |d|
  {
    if d != [] {
      var k := d[0].0;
      assert Get(d, k) == Some(d[0].1) && Get(e, k) == Some(e[0].1);
      forall k' ensures Get(d[1..], k') == Get(e[1..], k') {
        if k' != k {
          assert Get(d, k') == Get(d[1..], k');
          assert Get(e, k') == Get(e[1..], k');
        } else {
          assert k !in Keys(d[1..]);
          assert k !in Keys(e[1..]);
        }
      }
      assert Keys(d[1..]) == Keys(d)[1..];
      assert Keys(e[1..]) == Keys(e)[1..];
      Extensional(d[1..], e[1..]);
    }
  }

  /** Storing the value a key already has changes nothing. */
  lemma PutSame<K(!new), V>(d: Dict<K, V>, k: K, v: V)
    requires Unique(d) && Get(d, k) == Some(v)
    ensures Put(d, k, v) == d
  {
    PutUnique(d, k, v);
    Extensional(Put(d, k, v), d);
  }

  // ---------------------------------------------------------------------
  // Grouping rows by key, as `breaks[k].append(v)` in a loop does

  /** One row's contribution, if it has one: its value is appended to the
      list of its key. */
  function AddRow<K(==,!new), V>(d: Dict<K, seq<V>>, row: Option<(K, V)>): Dict<K, seq<V>>
  {
    match row
    case None => d
    case Some((k, v)) => Append(d, k, v)
  }

  /** The dictionary built from the rows' contributions, first to last. */
  function Group<K(==,!new), V>(rows: seq<Option<(K, V)>>): Dict<K, seq<V>>
  {
    if rows == [] then [] else AddRow(Group(rows[..|rows| - 1]), rows[|rows| - 1])
  }

  /** The values the rows give for one key, in row order. */
  function ValuesFor<K(==), V>(rows: seq<Option<(K, V)>>, k: K): seq<V>
  {
    if rows == [] then []
    else ValuesFor(rows[..|rows| - 1], k) + ValuesOf(rows[|rows| - 1], k)
  }

  /** The values one row gives for a key. */
  function ValuesOf<K(==), V>(row: Option<(K, V)>, k: K): seq<V>
  {
    if row.Some? && row.value.0 == k then [row.value.1] else []
  }

  /** One row keeps the lookup of a key in step with its values. */
  lemma AddRowStep<K(!new), V>(d: Dict<K, seq<V>>, row: Option<(K, V)>, k: K, vs: seq<V>)
    requires Unique(d)
    requires Get(d, k) == if vs == [] then None else Some(vs)
    ensures Unique(AddRow(d, row))
    ensures Get(AddRow(d, row), k) == if vs + ValuesOf(row, k) == [] then None else Some(vs + ValuesOf(row, k))
  {
    if row.Some? {
      var (k', v) := row.value;
      assert AddRow(d, row) == Append(d, k', v);
      if k' == k {
        assert vs + ValuesOf(row, k) == vs + [v];
        if vs == [] {
          assert k !in Keys(d);
          assert vs + [v] == [v];
        }
      } else {
        assert vs + ValuesOf(row, k) == vs + [] == vs;
      }
    } else {
      assert vs + [] == vs;
    }
  }

  /** The grouped dictionary has one entry per key some row gives, and that
      entry lists the values the rows give for the key, in row order. */
  lemma {:induction false} GroupSpec<K(!new), V>(rows: seq<Option<(K, V)>>, k: K)
    ensures Unique(Group(rows))
    ensures Get(Group(rows), k) == if ValuesFor(rows, k) == [] then None else Some(ValuesFor(rows, k))
  {
    if rows != [] {
      var init := rows[..|rows| - 1];
      GroupSpec(init, k);
      AddRowStep(Group(init), rows[|rows| - 1], k, ValuesFor(init, k));
    }
  }
}
