/**
  OCaml's `Hashtbl`: each key has a stack of bindings, of which `find` sees the last.  `add` hides
  the binding there was, `remove` uncovers it again, and `replace` overwrites it.
 */
module Tables {
  import opened Bytes

  type Table<K, V> = map<K, seq<V>>

  function Stack<K, V>(t: Table<K, V>, k: K): seq<V> {
    if k in t then t[k] else []
  }

  function Top<V>(s: seq<V>): Option<V> {
    if s == [] then None else Some(s[|s| - 1])
  }

  function Find<K, V>(t: Table<K, V>, k: K): Option<V> { Top(Stack(t, k)) }

  function Add<K, V>(t: Table<K, V>, k: K, v: V): Table<K, V> { t[k := Stack(t, k) + [v]] }

  function Remove<K, V>(t: Table<K, V>, k: K): Table<K, V> {
    var s := Stack(t, k);
    if s == [] then t else t[k := s[..|s| - 1]]
  }

  function Overwrite<V>(s: seq<V>, v: V): seq<V> {
    if s == [] then [v] else s[..|s| - 1] + [v]
  }

  function Replace<K, V>(t: Table<K, V>, k: K, v: V): Table<K, V> { t[k := Overwrite(Stack(t, k), v)] }

  /** Tables that no sequence of operations can tell apart. */
  ghost predicate Same<K(!new), V>(t: Table<K, V>, u: Table<K, V>) {
    forall k :: Stack(t, k) == Stack(u, k)
  }

  function Reverse<V>(s: seq<V>): (r: seq<V>)
    ensures |r| == |s| && forall i | 0 <= i < |s| :: r[i] == s[|s| - 1 - i]
  {
    seq(|s|, i requires 0 <= i < |s| => s[|s| - 1 - i])
  }
}
