/**
 * Python dicts with string keys, kept as their items in insertion order, and
 * the subscript lookup on them.
 */
module Tables {
  import opened Wrappers

  /** The keys of a table, in order. */
  function Codes<T>(table: seq<(string, T)>): (r: seq<string>)
    ensures |r| == |table| && forall i :: 0 <= i < |table| ==> r[i] == table[i].0
  {
    if |table| == 0 then [] else Codes(table[..|table| - 1]) + [table[|table| - 1].0]
  }

  /** `table[key]`, `None` standing for the `KeyError` of a missing key. */
  function Lookup<T(==)>(table: seq<(string, T)>, key: string): (r: Option<T>)
    ensures r.Some? <==> key in Codes(table)
    ensures r.Some? ==> (key, r.value) in table
  {
    if |table| == 0 then None
    else if table[0].0 == key then Some(table[0].1)
    else
      assert forall i :: 0 < i < |table| ==> table[i] == table[1..][i - 1];
      assert key in Codes(table) ==> key in Codes(table[1..]) by {
        if key in Codes(table) {
          var i :| 0 <= i < |table| && Codes(table)[i] == key;
          assert Codes(table[1..])[i - 1] == key;
        }
      }
      Lookup(table[1..], key)
  }

  /** With distinct keys, an entry of the table is what looking its key up gives. */
  lemma LookupFindsEntry<T>(table: seq<(string, T)>, i: nat)
    requires i < |table|
    requires forall a, b :: 0 <= a < b < |table| ==> table[a].0 != table[b].0
    ensures Lookup(table, table[i].0) == Some(table[i].1)
  {
    assert table[i].0 in Codes(table);
    var r := Lookup(table, table[i].0);
    var j :| 0 <= j < |table| && table[j] == (table[i].0, r.value);
  }
}
