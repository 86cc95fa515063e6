/** Sequences, filters, stable sorting and ordered listings shared by the other modules.

    `Sort` models the standard library's stable `sort_by`; `Ascending` models the key order in
    which a `BTreeMap` or `BTreeSet` is iterated. */
module Orders {

  datatype Option<+T> = None | Some(value: T)

  datatype Result<+T, +E> = Ok(value: T) | Err(error: E)

  // ----- order relations

  ghost predicate TotalPreorder<T(!new)>(le: (T, T) -> bool) {
    && (forall x, y :: le(x, y) || le(y, x))
    && (forall x, y, z :: le(x, y) && le(y, z) ==> le(x, z))
  }

  ghost predicate TotalOrder<T(!new)>(le: (T, T) -> bool) {
    && TotalPreorder(le)
    && (forall x, y :: le(x, y) && le(y, x) ==> x == y)
  }

  ghost predicate SortedBy<T>(le: (T, T) -> bool, s: seq<T>) {
    forall i, j | 0 <= i < j < |s| :: le(s[i], s[j])
  }

  ghost predicate Distinct<T>(s: seq<T>) {
    forall i, j | 0 <= i < j < |s| :: s[i] != s[j]
  }

  /** Lexicographic order on strings, the order of Rust's `String`. */
  predicate StringLe(a: string, b: string) {
    a == [] || (b != [] && (a[0] < b[0] || (a[0] == b[0] && StringLe(a[1..], b[1..]))))
  }

  lemma {:induction false} StringLeTransitive(a: string, b: string, c: string)
    requires StringLe(a, b) && StringLe(b, c)
    ensures StringLe(a, c)
  {
    if a != [] && a[0] == b[0] && b[0] == c[0] {
      StringLeTransitive(a[1..], b[1..], c[1..]);
    }
  }

  lemma {:induction false} StringLeAntisymmetric(a: string, b: string)
    requires StringLe(a, b) && StringLe(b, a)
    ensures a == b
  {
    if a != [] {
      StringLeAntisymmetric(a[1..], b[1..]);
      assert a == [a[0]] + a[1..] && b == [b[0]] + b[1..];
    }
  }

  lemma {:induction false} StringLeConnex(a: string, b: string)
    ensures StringLe(a, b) || StringLe(b, a)
  {
    if a != [] && b != [] {
      StringLeConnex(a[1..], b[1..]);
    }
  }

  lemma {:induction false} StringLeTotalOrder()
    ensures TotalOrder(StringLe)
  {
    forall a, b ensures StringLe(a, b) || StringLe(b, a) { StringLeConnex(a, b); }
    forall a, b, c | StringLe(a, b) && StringLe(b, c) ensures StringLe(a, c) {
      StringLeTransitive(a, b, c);
    }
    forall a, b | StringLe(a, b) && StringLe(b, a) ensures a == b { StringLeAntisymmetric(a, b); }
  }

  lemma {:induction false} ConcatAssoc<T>(a: seq<T>, b: seq<T>, c: seq<T>)
    ensures (a + b) + c == a + (b + c)
  {
  }

  // ----- filter and map

  function Filter<T>(p: T -> bool, s: seq<T>): (r: seq<T>)
    ensures |r| <= |s|
  {
    if s == [] then []
    else if p(s[0]) then [s[0]] + Filter(p, s[1..])
    else Filter(p, s[1..])
  }

  function Map<T, U>(f: T -> U, s: seq<T>): (r: seq<U>)
    ensures |r| == |s|
    ensures forall i | 0 <= i < |s| :: r[i] == f(s[i])
  {
    seq(|s|, i requires 0 <= i < |s| => f(s[i]))
  }

  lemma {:induction false} MapSnoc<T, U>(f: T -> U, s: seq<T>, x: T)
    ensures Map(f, s + [x]) == Map(f, s) + [f(x)]
  {
  }

  lemma {:induction false} FilterMember<T>(p: T -> bool, s: seq<T>, x: T)
    ensures x in Filter(p, s) <==> x in s && p(x)
  {
    if s != [] {
      FilterMember(p, s[1..], x);
      assert s == [s[0]] + s[1..];
    }
  }

  lemma {:induction false} FilterMembers<T(!new)>(p: T -> bool, s: seq<T>)
    ensures forall x :: x in Filter(p, s) <==> x in s && p(x)
  {
    forall x ensures x in Filter(p, s) <==> x in s && p(x) { FilterMember(p, s, x); }
  }

  lemma {:induction false} FilterCons<T>(p: T -> bool, x: T, s: seq<T>)
    ensures Filter(p, [x] + s) == if p(x) then [x] + Filter(p, s) else Filter(p, s)
  {
    assert ([x] + s)[1..] == s;
  }

  lemma {:induction false} FilterConcat<T>(p: T -> bool, a: seq<T>, b: seq<T>)
    ensures Filter(p, a + b) == Filter(p, a) + Filter(p, b)
  {
    if a == [] {
      assert a + b == b;
    } else {
      FilterConcat(p, a[1..], b);
      assert a + b == [a[0]] + (a[1..] + b);
      FilterCons(p, a[0], a[1..] + b);
      ConcatAssoc([a[0]], Filter(p, a[1..]), Filter(p, b));
    }
  }

  lemma {:induction false} FilterSnoc<T>(p: T -> bool, s: seq<T>, x: T)
    ensures Filter(p, s + [x]) == if p(x) then Filter(p, s) + [x] else Filter(p, s)
  {
    FilterConcat(p, s, [x]);
    assert Filter(p, s) + [] == Filter(p, s);
  }

  lemma {:induction false} FilterAll<T>(p: T -> bool, s: seq<T>)
    requires forall i | 0 <= i < |s| :: p(s[i])
    ensures Filter(p, s) == s
  {
    if s != [] {
      FilterAll(p, s[1..]);
      assert s == [s[0]] + s[1..];
    }
  }

  lemma {:induction false} FilterNone<T>(p: T -> bool, s: seq<T>)
    requires forall i | 0 <= i < |s| :: !p(s[i])
    ensures Filter(p, s) == []
  {
    if s != [] {
      FilterNone(p, s[1..]);
    }
  }

  lemma {:induction false} FilterSorted<T>(le: (T, T) -> bool, p: T -> bool, s: seq<T>)
    requires SortedBy(le, s)
    ensures SortedBy(le, Filter(p, s))
  {
    if s != [] {
      FilterSorted(le, p, s[1..]);
      var rest := Filter(p, s[1..]);
      forall i | 0 <= i < |rest| ensures le(s[0], rest[i]) {
        FilterMember(p, s[1..], rest[i]);
      }
    }
  }

  // ----- stable sort

  /** Places `x` before the first element it may precede, so before every later equal element. */
  function Insert<T>(le: (T, T) -> bool, x: T, s: seq<T>): (r: seq<T>)
    ensures |r| == |s| + 1
  {
    if s == [] then [x]
    else if le(x, s[0]) then [x] + s
    else [s[0]] + Insert(le, x, s[1..])
  }

  function Sort<T>(le: (T, T) -> bool, s: seq<T>): (r: seq<T>)
    ensures |r| == |s|
  {
    if s == [] then [] else Insert(le, s[0], Sort(le, s[1..]))
  }

  lemma {:induction false} InsertPermutes<T>(le: (T, T) -> bool, x: T, s: seq<T>)
    ensures multiset(Insert(le, x, s)) == multiset{x} + multiset(s)
  {
    if s != [] {
      assert s == [s[0]] + s[1..];
      InsertPermutes(le, x, s[1..]);
    }
  }

  lemma {:induction false} SortPermutes<T>(le: (T, T) -> bool, s: seq<T>)
    ensures multiset(Sort(le, s)) == multiset(s)
  {
    if s != [] {
      assert s == [s[0]] + s[1..];
      SortPermutes(le, s[1..]);
      InsertPermutes(le, s[0], Sort(le, s[1..]));
    }
  }

  lemma {:induction false} SameElements<T(!new)>(a: seq<T>, b: seq<T>)
    requires multiset(a) == multiset(b)
    ensures |a| == |b|
    ensures forall x :: x in a <==> x in b
  {
    assert |multiset(a)| == |multiset(b)|;
    forall x ensures x in a <==> x in b {
      assert x in a <==> x in multiset(a);
      assert x in b <==> x in multiset(b);
    }
  }

  lemma {:induction false} SortMembers<T(!new)>(le: (T, T) -> bool, s: seq<T>)
    ensures forall x :: x in Sort(le, s) <==> x in s
  {
    SortPermutes(le, s);
    SameElements(Sort(le, s), s);
  }

  /** Once an element of `s` is not below `x`, no later one is. */
  ghost predicate Upward<T>(le: (T, T) -> bool, x: T, s: seq<T>) {
    forall i, j | 0 <= i < j < |s| && le(x, s[i]) :: le(x, s[j])
  }

  lemma {:induction false} InsertSorted<T(!new)>(le: (T, T) -> bool, x: T, s: seq<T>)
    requires TotalPreorder(le) && SortedBy(le, s)
    ensures SortedBy(le, Insert(le, x, s))
  {
    if s == [] {
    } else if le(x, s[0]) {
      forall j | 0 < j < |s| ensures le(x, s[j]) {
        assert le(s[0], s[j]);
      }
    } else {
      var rest := Insert(le, x, s[1..]);
      InsertSorted(le, x, s[1..]);
      forall i | 0 <= i < |rest| ensures le(s[0], rest[i]) {
        InsertPermutes(le, x, s[1..]);
        assert rest[i] in multiset(rest);
        assert rest[i] == x || rest[i] in s[1..];
      }
    }
  }

  lemma {:induction false} SortSorted<T(!new)>(le: (T, T) -> bool, s: seq<T>)
    requires TotalPreorder(le)
    ensures SortedBy(le, Sort(le, s))
  {
    if s != [] {
      SortSorted(le, s[1..]);
      InsertSorted(le, s[0], Sort(le, s[1..]));
    }
  }

  lemma {:induction false} SortedUpward<T(!new)>(le: (T, T) -> bool, x: T, s: seq<T>)
    requires TotalPreorder(le) && SortedBy(le, s)
    ensures Upward(le, x, s)
  {
    forall i, j | 0 <= i < j < |s| && le(x, s[i]) ensures le(x, s[j]) {
      assert le(s[i], s[j]);
    }
  }

  lemma {:induction false} InsertFront<T>(le: (T, T) -> bool, x: T, s: seq<T>)
    requires forall i | 0 <= i < |s| :: le(x, s[i])
    ensures Insert(le, x, s) == [x] + s
  {
  }

  lemma {:induction false} InsertFilter<T>(le: (T, T) -> bool, p: T -> bool, x: T, s: seq<T>)
    requires Upward(le, x, s)
    ensures Filter(p, Insert(le, x, s)) ==
            if p(x) then Insert(le, x, Filter(p, s)) else Filter(p, s)
  {
    if s == [] {
    } else if le(x, s[0]) {
      FilterCons(p, x, s);
      var f := Filter(p, s);
      forall i | 0 <= i < |f| ensures le(x, f[i]) {
        FilterMember(p, s, f[i]);
      }
      InsertFront(le, x, f);
    } else {
      InsertFilter(le, p, x, s[1..]);
      FilterCons(p, s[0], Insert(le, x, s[1..]));
      assert ([s[0]] + Filter(p, s[1..]))[1..] == Filter(p, s[1..]);
    }
  }

  lemma {:induction false} SortCons<T>(le: (T, T) -> bool, x: T, s: seq<T>)
    ensures Sort(le, [x] + s) == Insert(le, x, Sort(le, s))
  {
    assert ([x] + s)[1..] == s;
  }

  /** A stable sort commutes with taking a sub-sequence by a predicate. */
  lemma {:induction false} SortFilter<T(!new)>(le: (T, T) -> bool, p: T -> bool, s: seq<T>)
    requires TotalPreorder(le)
    ensures Filter(p, Sort(le, s)) == Sort(le, Filter(p, s))
  {
    if s != [] {
      SortFilter(le, p, s[1..]);
      SortSorted(le, s[1..]);
      SortedUpward(le, s[0], Sort(le, s[1..]));
      InsertFilter(le, p, s[0], Sort(le, s[1..]));
      SortCons(le, s[0], Filter(p, s[1..]));
    }
  }

  lemma {:induction false} SortOfSorted<T>(le: (T, T) -> bool, s: seq<T>)
    requires SortedBy(le, s)
    ensures Sort(le, s) == s
  {
    if s != [] {
      SortOfSorted(le, s[1..]);
      InsertFront(le, s[0], s[1..]);
      assert s == [s[0]] + s[1..];
    }
  }

  lemma {:induction false} RemoveFirst<T>(a: seq<T>, b: seq<T>)
    requires multiset(a) == multiset(b) && a != [] && b != [] && a[0] == b[0]
    ensures multiset(a[1..]) == multiset(b[1..])
  {
    assert a == [a[0]] + a[1..] && b == [b[0]] + b[1..];
    assert multiset(a[1..]) == multiset(a) - multiset{a[0]};
    assert multiset(b[1..]) == multiset(b) - multiset{b[0]};
  }

  /** When the order separates the elements of `s`, sorting any permutation of `s` gives the
      same sequence. */
  lemma {:induction false} SortedUnique<T(!new)>(le: (T, T) -> bool, a: seq<T>, b: seq<T>)
    requires SortedBy(le, a) && SortedBy(le, b) && multiset(a) == multiset(b)
    requires forall x, y | x in a && y in a && le(x, y) && le(y, x) :: x == y
    ensures a == b
  {
    SameElements(a, b);
    if a != [] {
      assert a[0] == b[0] by {
        assert a[0] in b && b[0] in a;
      }
      RemoveFirst(a, b);
      SortedUnique(le, a[1..], b[1..]);
      assert a == [a[0]] + a[1..] && b == [b[0]] + b[1..];
    }
  }

  // ----- listing a set in ascending order

  predicate IsLeast<T(!new)>(le: (T, T) -> bool, s: set<T>, m: T) { forall x | x in s :: le(m, x) }

  lemma {:induction false} HasLeast<T(!new)>(le: (T, T) -> bool, s: set<T>)
    requires TotalOrder(le) && s != {}
    ensures exists m :: m in s && IsLeast(le, s, m)
  {
    var y :| y in s;
    if s == {y} {
      assert IsLeast(le, s, y);
    } else {
      HasLeast(le, s - {y});
      var m :| m in s - {y} && IsLeast(le, s - {y}, m);
      LeastOfTwo(le, s, y, m);
    }
  }

  lemma {:induction false} LeastOfTwo<T(!new)>(le: (T, T) -> bool, s: set<T>, y: T, m: T)
    requires TotalOrder(le) && y in s && m in s && IsLeast(le, s - {y}, m)
    ensures exists k :: k in s && IsLeast(le, s, k)
  {
    var k := if le(y, m) then y else m;
    forall x | x in s ensures le(k, x) {
      assert x != y ==> le(m, x);
    }
    assert k in s && IsLeast(le, s, k);
  }

  lemma {:induction false} PrependLeast<T(!new)>(le: (T, T) -> bool, s: set<T>, m: T, rest: seq<T>)
    requires m in s && IsLeast(le, s, m)
    requires (forall x :: x in rest <==> x in s - {m}) && SortedBy(le, rest) && Distinct(rest) && |rest| == |s - {m}|
    ensures (forall x :: x in [m] + rest <==> x in s) && SortedBy(le, [m] + rest) && Distinct([m] + rest)
    ensures |[m] + rest| == |s|
  {
    forall i | 0 <= i < |rest| ensures le(m, rest[i]) && rest[i] != m {
      assert rest[i] in rest;
    }
  }

  /** The elements of `s` in ascending order: how an ordered map or set is iterated. */
  function Ascending<T(!new)>(le: (T, T) -> bool, s: set<T>): (r: seq<T>)
    requires TotalOrder(le)
    ensures (forall x :: x in r <==> x in s) && SortedBy(le, r) && Distinct(r) && |r| == |s|
    decreases |s|
  {
    if s == {} then []
    else
      HasLeast(le, s);
      var m :| m in s && IsLeast(le, s, m);
      var rest := Ascending(le, s - {m});
      PrependLeast(le, s, m, rest);
      [m] + rest
  }

  // ----- slices

  lemma {:induction false} DropDrop<T>(s: seq<T>, n: nat, m: nat)
    requires n + m <= |s|
    ensures s[n..][m..] == s[n + m..]
  {
  }

  lemma {:induction false} DropTake<T>(s: seq<T>, n: nat, m: nat)
    requires n + m <= |s|
    ensures s[n..][..m] == s[n..n + m] == s[..n + m][n..]
    ensures s[..n + m][..n] == s[..n]
  {
  }

  /** `s[i..j]`, element by element. */
  function Sub<T>(s: seq<T>, i: nat, j: nat): (r: seq<T>)
    requires i <= j <= |s|
    ensures |r| == j - i && forall k | 0 <= k < j - i :: r[k] == s[i + k]
  {
    seq(j - i, k requires 0 <= k < j - i => s[i + k])
  }

  lemma {:induction false} SubIsSlice<T>(s: seq<T>, i: nat, j: nat)
    requires i <= j <= |s|
    ensures Sub(s, i, j) == s[i..j]
  {
  }

  lemma {:induction false} SubSnoc<T>(s: seq<T>, i: nat, k: nat)
    requires i <= k < |s|
    ensures Sub(s, i, k + 1) == Sub(s, i, k) + [s[k]]
  {
  }

  // ----- concatenation

  function Flatten<T>(ss: seq<seq<T>>): (r: seq<T>) {
    if ss == [] then [] else ss[0] + Flatten(ss[1..])
  }

  lemma {:induction false} FlattenCons<T>(x: seq<T>, ss: seq<seq<T>>)
    ensures Flatten([x] + ss) == x + Flatten(ss)
  {
    assert ([x] + ss)[1..] == ss;
  }

  lemma {:induction false} FlattenConcat<T>(a: seq<seq<T>>, b: seq<seq<T>>)
    ensures Flatten(a + b) == Flatten(a) + Flatten(b)
  {
    if a == [] {
      assert a + b == b;
    } else {
      FlattenConcat(a[1..], b);
      assert a + b == [a[0]] + (a[1..] + b);
      FlattenCons(a[0], a[1..] + b);
      ConcatAssoc(a[0], Flatten(a[1..]), Flatten(b));
    }
  }

  lemma {:induction false} FlattenSnoc<T>(ss: seq<seq<T>>, s: seq<T>)
    ensures Flatten(ss + [s]) == Flatten(ss) + s
  {
    FlattenConcat(ss, [s]);
    assert Flatten([s]) == s;
  }
}
