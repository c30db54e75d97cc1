/** Python list and dictionary operations shared by rooms, corridors, effect lists and the character's keys. */
module Lists {
  import opened Wrappers

  /** `dict.get(k)`: the value stored under `k`, or None when there is none. */
  function Lookup<K, V>(m: map<K, V>, k: K): (o: Option<V>)
    ensures o.Some? <==> k in m
    ensures o.Some? ==> o.value == m[k]
  {
    if k in m then Some(m[k]) else None
  }

  /** Python's `lst.remove(x)`: drops the first element equal to `x`; no change when there is none. */
  function RemoveFirst<T(==)>(s: seq<T>, x: T): (r: seq<T>)
    ensures x in s ==> multiset(r) == multiset(s) - multiset{x}
    ensures x !in s ==> r == s
  {
    if |s| == 0 then []
    else
      assert s == [s[0]] + s[1..];
      if s[0] == x then s[1..]
      else [s[0]] + RemoveFirst(s[1..], x)
  }

  /** `remove` never adds an element. */
  lemma {:induction false} RemoveFirstWithin<T>(s: seq<T>, x: T)
    ensures forall y :: y in RemoveFirst(s, x) ==> y in s
  {
    if |s| > 0 && s[0] != x {
      RemoveFirstWithin(s[1..], x);
    }
  }
}
