/** Python's insertion-ordered dict, its iteration order kept explicit, and sums over it. */
module Dicts {

  datatype Option<+T> = None | Some(value: T)

  ghost predicate Distinct<K>(s: seq<K>) {
    forall i, j :: 0 <= i < j < |s| ==> s[i] != s[j]
  }

  datatype Dict<K(==), V> = Dict(order: seq<K>, at: map<K, V>) {

    ghost predicate Valid() {
      Distinct(order) && (forall k :: k in order ==> k in at) && (forall k :: k in at ==> k in order)
    }

    /** `d[k] = v`: a new key goes to the end, a known key keeps its place. */
    function Put(k: K, v: V): (d: Dict<K, V>)
      ensures Valid() ==> d.Valid()
    {
      Dict(if k in at then order else order + [k], at[k := v])
    }

    /** `d.get(k, dflt)` */
    function GetOr(k: K, dflt: V): V {
      if k in at then at[k] else dflt
    }
  }

  lemma TakenOnce<K>(order: seq<K>, i: nat)
    requires Distinct(order) && i < |order|
    ensures order[i] !in order[..i] && forall k :: k in order[..i + 1] <==> k in order[..i] || k == order[i]
  {
    assert order[..i + 1] == order[..i] + [order[i]];
  }

  lemma Regroup<T>(a: seq<T>, b: seq<T>, c: seq<T>)
    ensures (a + b) + c == a + (b + c)
  {
  }

  function Sum<K>(s: seq<K>, g: K -> int): int {
    if s == [] then 0 else Sum(s[..|s| - 1], g) + g(s[|s| - 1])
  }

  lemma {:induction false} SumAppend<K>(s: seq<K>, x: K, g: K -> int)
    ensures Sum(s + [x], g) == Sum(s, g) + g(x)
  {
    assert (s + [x])[..|s|] == s;
  }

  lemma {:induction false} SumConcat<K>(s: seq<K>, t: seq<K>, g: K -> int)
    ensures Sum(s + t, g) == Sum(s, g) + Sum(t, g)
  {
    if t == [] {
      assert s + t == s;
    } else {
      SumConcat(s, t[..|t| - 1], g);
      assert (s + t)[..|s + t| - 1] == s + t[..|t| - 1];
    }
  }

  lemma {:induction false} SumSame<K>(s: seq<K>, g: K -> int, h: K -> int)
    requires forall k :: k in s ==> g(k) == h(k)
    ensures Sum(s, g) == Sum(s, h)
  {
    if s != [] {
      SumSame(s[..|s| - 1], g, h);
    }
  }

  lemma {:induction false} SumPlus<K>(s: seq<K>, g: K -> int, h: K -> int, both: K -> int)
    requires forall k :: k in s ==> both(k) == g(k) + h(k)
    ensures Sum(s, both) == Sum(s, g) + Sum(s, h)
  {
    if s != [] {
      SumPlus(s[..|s| - 1], g, h, both);
    }
  }

  lemma {:induction false} SumScaled<K>(s: seq<K>, c: int, g: K -> int, scaled: K -> int)
    requires forall k :: k in s ==> scaled(k) == c * g(k)
    ensures Sum(s, scaled) == c * Sum(s, g)
  {
    if s != [] {
      SumScaled(s[..|s| - 1], c, g, scaled);
    }
  }

  lemma {:induction false} SumBounds<K>(s: seq<K>, g: K -> int, lo: int, hi: int)
    requires forall k :: k in s ==> lo <= g(k) <= hi
    ensures |s| * lo <= Sum(s, g) <= |s| * hi
  {
    if s != [] {
      SumBounds(s[..|s| - 1], g, lo, hi);
    }
  }

  /** Changing a measure at one key of a duplicate-free sequence moves the sum by that change. */
  lemma {:induction false} SumChange<K>(s: seq<K>, k: K, g: K -> int, h: K -> int)
    requires Distinct(s)
    requires forall j :: j in s && j != k ==> g(j) == h(j)
    ensures Sum(s, h) == Sum(s, g) + if k in s then h(k) - g(k) else 0
  {
    if s != [] {
      var front, last := s[..|s| - 1], s[|s| - 1];
      assert s == front + [last];
      if last == k {
        SumSame(front, g, h);
      } else {
        SumChange(front, k, g, h);
      }
    }
  }

  lemma {:induction false} SumPick<K>(s: seq<K>, k: K, c: int, pick: K -> int)
    requires Distinct(s) && forall j :: j in s ==> pick(j) == if j == k then c else 0
    ensures Sum(s, pick) == if k in s then c else 0
  {
    SumChange(s, k, j => 0, pick);
    SumBounds(s, j => 0, 0, 0);
  }

  function Without<K>(s: seq<K>, i: nat): seq<K>
    requires i < |s|
  {
    s[..i] + s[i + 1..]
  }

  lemma {:induction false} WithoutMembers<K>(s: seq<K>, i: nat)
    requires i < |s| && Distinct(s)
    ensures Distinct(Without(s, i))
    ensures forall k :: k in Without(s, i) <==> k in s && k != s[i]
  {
    var r := Without(s, i);
    assert forall j :: 0 <= j < |r| ==> r[j] == if j < i then s[j] else s[j + 1];
    forall k | k in s && k != s[i] ensures k in r {
      var j :| 0 <= j < |s| && s[j] == k;
      assert r[if j < i then j else j - 1] == k;
    }
  }

  lemma {:induction false} SumWithout<K>(s: seq<K>, i: nat, g: K -> int)
    requires i < |s|
    ensures Sum(s, g) == Sum(Without(s, i), g) + g(s[i])
  {
    assert s == (s[..i] + [s[i]]) + s[i + 1..];
    SumConcat(s[..i] + [s[i]], s[i + 1..], g);
    SumAppend(s[..i], s[i], g);
    SumConcat(s[..i], s[i + 1..], g);
  }

  /** Iteration order does not matter to a sum. */
  lemma {:induction false} SumReorder<K>(s: seq<K>, t: seq<K>, g: K -> int)
    requires Distinct(s) && Distinct(t)
    requires forall k :: k in s <==> k in t
    ensures Sum(s, g) == Sum(t, g)
  {
    assert t != [] ==> t[0] in t;
    if s != [] {
      var n := |s| - 1;
      assert s[n] in t;
      var i :| 0 <= i < |t| && t[i] == s[n];
      WithoutMembers(s, n);
      WithoutMembers(t, i);
      SumReorder(Without(s, n), Without(t, i), g);
      SumWithout(s, n, g);
      SumWithout(t, i, g);
    }
  }

  /** The measure of the value stored under k; an absent key measures 0. */
  function At<K, V>(d: Dict<K, V>, k: K, g: V -> int): int {
    if k in d.at then g(d.at[k]) else 0
  }

  /** `sum(g(v) for v in d.values())` */
  function Total<K, V>(d: Dict<K, V>, g: V -> int): int {
    Sum(d.order, k => At(d, k, g))
  }

  lemma {:induction false} TotalPut<K, V>(d: Dict<K, V>, k: K, v: V, g: V -> int)
    requires d.Valid()
    ensures Total(d.Put(k, v), g) == Total(d, g) - At(d, k, g) + g(v)
  {
    var e := d.Put(k, v);
    var was, now := (j => At(d, j, g)), (j => At(e, j, g));
    SumChange(d.order, k, was, now);
    if k !in d.at {
      SumAppend(d.order, k, now);
    }
  }
}
