/** Grouping the elements of a sequence by key, as a loop over `map.entry(key).or_default().push(x)`
    does, and listing the groups in key order. */
module Grouping {
  import opened Orders

  predicate HasKey<T, K(==)>(key: T -> Option<K>, k: K, x: T) { key(x) == Some(k) }

  function Having<T, K(==)>(key: T -> Option<K>, k: K): T -> bool { x => HasKey(key, k, x) }

  function Keyed<T, K(==)>(key: T -> Option<K>): T -> bool { x => key(x).Some? }

  function KeysOf<T(==), K>(key: T -> Option<K>, s: seq<T>): (keys: set<K>)
    ensures forall i | 0 <= i < |s| && key(s[i]).Some? :: key(s[i]).value in keys
  {
    set x | x in s && key(x).Some? :: key(x).value
  }

  /** One group a key, each in the order of `s`; elements without a key are in none. */
  function Groups<T(==), K>(key: T -> Option<K>, s: seq<T>): (groups: map<K, seq<T>>) {
    map k | k in KeysOf(key, s) :: Filter(Having(key, k), s)
  }

  /** What pushing `x` under its key does to the groups so far. */
  function Push<T, K>(groups: map<K, seq<T>>, k: K, x: T): map<K, seq<T>> {
    groups[k := (if k in groups then groups[k] else []) + [x]]
  }

  lemma {:induction false} KeysSnoc<T, K>(key: T -> Option<K>, s: seq<T>, x: T)
    ensures KeysOf(key, s + [x]) == KeysOf(key, s) + (if key(x).Some? then {key(x).value} else {})
  {
    var keys, more := KeysOf(key, s), KeysOf(key, s + [x]);
    forall k | k in keys ensures k in more {
      var y :| y in s && key(y) == Some(k);
      assert y in s + [x];
    }
    forall k | k in more ensures k in keys || key(x) == Some(k) {
      var y :| y in s + [x] && key(y) == Some(k);
      assert y in s || y == x;
    }
    assert (s + [x])[|s|] == x;
  }

  lemma {:induction false} NoGroupYet<T, K>(key: T -> Option<K>, s: seq<T>, k: K)
    requires k !in KeysOf(key, s)
    ensures Filter(Having(key, k), s) == []
  {
    forall i | 0 <= i < |s| ensures !Having(key, k)(s[i]) {
    }
    FilterNone(Having(key, k), s);
  }

  lemma {:induction false} GroupSnoc<T, K>(key: T -> Option<K>, s: seq<T>, x: T, k: K)
    requires k in KeysOf(key, s + [x])
    ensures Filter(Having(key, k), s + [x]) ==
            if key(x) == Some(k) then (if k in KeysOf(key, s) then Groups(key, s)[k] else []) + [x]
            else Filter(Having(key, k), s)
  {
    hide KeysOf;
    FilterSnoc(Having(key, k), s, x);
    if k !in KeysOf(key, s) {
      NoGroupYet(key, s, k);
    }
  }

  lemma {:induction false} GroupsSnoc<T, K>(key: T -> Option<K>, s: seq<T>, x: T)
    ensures Groups(key, s + [x]) ==
            if key(x).Some? then Push(Groups(key, s), key(x).value, x) else Groups(key, s)
  {
    hide KeysOf;
    KeysSnoc(key, s, x);
    forall k | k in KeysOf(key, s + [x])
      ensures Groups(key, s + [x])[k] ==
              if key(x) == Some(k) then (if k in KeysOf(key, s) then Groups(key, s)[k] else []) + [x]
              else Filter(Having(key, k), s)
    {
      GroupSnoc(key, s, x, k);
    }
  }

  lemma {:induction false} GroupNotEmpty<T, K>(key: T -> Option<K>, s: seq<T>, k: K)
    requires k in KeysOf(key, s)
    ensures Groups(key, s)[k] != []
    ensures forall i | 0 <= i < |Groups(key, s)[k]| :: key(Groups(key, s)[k][i]) == Some(k)
  {
    var x :| x in s && key(x) == Some(k);
    var group := Filter(Having(key, k), s);
    FilterMember(Having(key, k), s, x);
    forall i | 0 <= i < |group| ensures key(group[i]) == Some(k) {
      FilterMember(Having(key, k), s, group[i]);
    }
  }

  lemma {:induction false} FilterFilter<T>(p: T -> bool, q: T -> bool, s: seq<T>)
    requires forall i | 0 <= i < |s| && p(s[i]) :: q(s[i])
    ensures Filter(p, Filter(q, s)) == Filter(p, s)
  {
    if s != [] {
      FilterFilter(p, q, s[1..]);
      FilterCons(p, s[0], Filter(q, s[1..]));
    }
  }

  // ----- the groups in a given key order

  function Listed<T, K>(groups: map<K, seq<T>>, keys: seq<K>, n: nat): (ss: seq<seq<T>>)
    requires n <= |keys| && forall i | 0 <= i < n :: keys[i] in groups
    ensures |ss| == n && forall i | 0 <= i < n :: ss[i] == groups[keys[i]]
  {
    seq(n, i requires 0 <= i < n => groups[keys[i]])
  }

  lemma {:induction false} ListedSnoc<T, K>(groups: map<K, seq<T>>, keys: seq<K>, n: nat)
    requires n < |keys| && forall i | 0 <= i <= n :: keys[i] in groups
    ensures Flatten(Listed(groups, keys, n + 1)) == Flatten(Listed(groups, keys, n)) + groups[keys[n]]
  {
    assert Listed(groups, keys, n + 1) == Listed(groups, keys, n) + [groups[keys[n]]];
    FlattenSnoc(Listed(groups, keys, n), groups[keys[n]]);
  }

  predicate KeyAmong<T, K(==)>(key: T -> Option<K>, keys: seq<K>, x: T) {
    key(x).Some? && key(x).value in keys
  }

  function Among<T, K(==)>(key: T -> Option<K>, keys: seq<K>): T -> bool { x => KeyAmong(key, keys, x) }

  lemma {:induction false} FilterUnion<T>(p: T -> bool, q: T -> bool, r: T -> bool, s: seq<T>)
    requires forall i | 0 <= i < |s| :: (p(s[i]) <==> q(s[i]) || r(s[i])) && !(q(s[i]) && r(s[i]))
    ensures multiset(Filter(p, s)) == multiset(Filter(q, s)) + multiset(Filter(r, s))
  {
    if s != [] {
      FilterUnion(p, q, r, s[1..]);
    }
  }

  lemma {:induction false} AmongSnoc<T, K>(key: T -> Option<K>, s: seq<T>, keys: seq<K>, k: K)
    requires k !in keys
    ensures multiset(Filter(Among(key, keys + [k]), s)) ==
            multiset(Filter(Among(key, keys), s)) + multiset(Filter(Having(key, k), s))
  {
    FilterUnion(Among(key, keys + [k]), Among(key, keys), Having(key, k), s);
  }

  lemma {:induction false} ListedPrefix<T, K>(key: T -> Option<K>, s: seq<T>, keys: seq<K>, n: nat)
    requires n <= |keys| && Distinct(keys) && forall i | 0 <= i < |keys| :: keys[i] in KeysOf(key, s)
    ensures multiset(Flatten(Listed(Groups(key, s), keys, n))) == multiset(Filter(Among(key, keys[..n]), s))
  {
    hide KeysOf, Among, Having;
    var groups := Groups(key, s);
    if n == 0 {
      NoneAmong(key, s);
      assert keys[..0] == [];
    } else {
      var k := keys[n - 1];
      ListedPrefix(key, s, keys, n - 1);
      ListedSnoc(groups, keys, n - 1);
      assert keys[..n] == keys[..n - 1] + [k];
      AmongSnoc(key, s, keys[..n - 1], k);
    }
  }

  lemma {:induction false} NoneAmong<T, K>(key: T -> Option<K>, s: seq<T>)
    ensures Filter(Among(key, []), s) == []
  {
    FilterNone(Among(key, []), s);
  }

  /** The groups hold every element that has a key, exactly as often as `s` does. */
  lemma {:induction false} GroupsConserve<T, K>(key: T -> Option<K>, s: seq<T>, keys: seq<K>)
    requires Distinct(keys)
    requires (forall k | k in KeysOf(key, s) :: k in keys) && (forall k | k in keys :: k in KeysOf(key, s))
    ensures multiset(Flatten(Listed(Groups(key, s), keys, |keys|))) == multiset(Filter(Keyed(key), s))
  {
    ListedPrefix(key, s, keys, |keys|);
    assert keys[..|keys|] == keys;
    AmongAll(key, s, keys);
  }

  lemma {:induction false} AmongAll<T, K>(key: T -> Option<K>, s: seq<T>, keys: seq<K>)
    requires forall k | k in KeysOf(key, s) :: k in keys
    ensures Filter(Among(key, keys), s) == Filter(Keyed(key), s)
  {
    forall i | 0 <= i < |s| ensures Among(key, keys)(s[i]) == Keyed(key)(s[i]) {
      assert key(s[i]).Some? ==> key(s[i]).value in KeysOf(key, s);
    }
    SameFilter(Among(key, keys), Keyed(key), s);
  }

  lemma {:induction false} SameFilter<T>(p: T -> bool, q: T -> bool, s: seq<T>)
    requires forall i | 0 <= i < |s| :: p(s[i]) == q(s[i])
    ensures Filter(p, s) == Filter(q, s)
  {
    if s != [] {
      SameFilter(p, q, s[1..]);
    }
  }

  /** Sorting each group is the same as grouping what was sorted first. */
  lemma {:induction false} SortThenGroup<T(!new), K>(le: (T, T) -> bool, key: T -> Option<K>, s: seq<T>, k: K)
    requires TotalPreorder(le) && k in KeysOf(key, s)
    ensures k in KeysOf(key, Sort(le, Filter(Keyed(key), s)))
    ensures Groups(key, Sort(le, Filter(Keyed(key), s)))[k] == Sort(le, Groups(key, s)[k])
  {
    var kept := Filter(Keyed(key), s);
    SortFilter(le, Having(key, k), kept);
    FilterFilter(Having(key, k), Keyed(key), s);
    KeysKept(le, key, s);
  }

  lemma {:induction false} KeysKept<T(!new), K>(le: (T, T) -> bool, key: T -> Option<K>, s: seq<T>)
    ensures KeysOf(key, Sort(le, Filter(Keyed(key), s))) == KeysOf(key, s)
  {
    SortMembers(le, Filter(Keyed(key), s));
    FilterMembers(Keyed(key), s);
  }
}
