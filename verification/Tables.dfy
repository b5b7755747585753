/** Ordered tables as LMDB keeps them: rows in key order, new rows only at the end,
    removal of one row by key.  Removing a row from the middle leaves a hole; nothing here
    renumbers.  That no hole ever appears is a theorem about whole runs, not a convention. */
module Tables {

  datatype Option<+T> = None | Some(value: T)

  datatype Row<+V> = Row(key: nat, value: V)

  type Table<V> = seq<Row<V>>

  /** No holes: the row at position i has key i. */
  ghost predicate Dense<V>(t: Table<V>) {
    forall i :: 0 <= i < |t| ==> t[i].key == i
  }

  /** Position of the row with the given key, if any. */
  function Find<V>(t: Table<V>, key: nat): (r: Option<nat>)
    ensures r.Some? ==> r.value < |t| && t[r.value].key == key
  {
    if t == [] then None
    else if t[|t| - 1].key == key then Some(|t| - 1)
    else Find(t[..|t| - 1], key)
  }

  /** The MDB_APPEND / MDB_APPENDDUP rule: the new key must lie beyond the last one. */
  predicate CanAppend<V>(t: Table<V>, key: nat) {
    t == [] || t[|t| - 1].key < key
  }

  function DeleteAt<V>(t: Table<V>, pos: nat): (r: Table<V>)
    requires pos < |t|
    ensures |r| == |t| - 1
  {
    t[..pos] + t[pos + 1..]
  }

  /** The last key plus one: how the store numbers its outputs globally. */
  function NextKey<V>(t: Table<V>): (k: nat)
    ensures CanAppend(t, k)
  {
    if t == [] then 0 else t[|t| - 1].key + 1
  }

  /** Removing the row that was appended last gives the table back. */
  lemma {:induction false} AppendDelete<V>(t: Table<V>, row: Row<V>)
    ensures Find(t + [row], row.key) == Some(|t|)
    ensures DeleteAt(t + [row], |t|) == t
  {
    var u := t + [row];
    assert u[|u| - 1] == row;
    assert DeleteAt(u, |t|) == u[..|t|] + u[|t| + 1..] == t;
  }

  /** In a table without holes the key is the position. */
  lemma {:induction false} DenseFind<V>(t: Table<V>, key: nat)
    requires Dense(t)
    ensures key < |t| ==> Find(t, key) == Some(key)
    ensures key >= |t| ==> Find(t, key) == None
  {
    if t != [] && t[|t| - 1].key != key { DenseFind(t[..|t| - 1], key); }
  }
}
