/** The stable sort that `Array.prototype.sort` performs when its comparator
    compares one key of each element and returns a negative number, zero or a
    positive number. Since ECMAScript 2019 the sort is required to be stable:
    elements the comparator calls equal keep their relative order. */
module StableSort {
  import opened Seqs

  /** A sort key. A sort compares keys of one kind only; the order between the
      two kinds exists only to make the key order total. */
  datatype Key = Text(s: string) | Number(n: int)

  datatype Direction = Asc | Desc

  // ---------------------------------------------------------------------
  // the key order

  /** The relational operator `<` on two strings: character by character, and
      a proper prefix before the longer string. */
  predicate LexLess(a: string, b: string)
    decreases |a|
  {
    if |a| == 0 then |b| > 0
    else |b| > 0 && (a[0] < b[0] || (a[0] == b[0] && LexLess(a[1..], b[1..])))
  }

  lemma {:induction false} LexLessIrreflexive(a: string)
    ensures !LexLess(a, a)
    decreases |a|
  {
    if |a| > 0 {
      LexLessIrreflexive(a[1..]);
    }
  }

  lemma {:induction false} LexLessTransitive(a: string, b: string, c: string)
    requires LexLess(a, b) && LexLess(b, c)
    ensures LexLess(a, c)
    decreases |a|
  {
    if |a| > 0 && a[0] == b[0] == c[0] {
      LexLessTransitive(a[1..], b[1..], c[1..]);
    }
  }

  lemma {:induction false} LexLessTotal(a: string, b: string)
    ensures a == b || LexLess(a, b) || LexLess(b, a)
    decreases |a|
  {
    if |a| > 0 && |b| > 0 && a[0] == b[0] {
      LexLessTotal(a[1..], b[1..]);
      if a[1..] == b[1..] {
        assert a == [a[0]] + a[1..] && b == [b[0]] + b[1..];
      }
    }
  }

  /** The order on keys: strings by `LexLess`, numbers numerically. */
  predicate KeyLess(a: Key, b: Key)
  {
    match a
    case Text(x) => b.Number? || LexLess(x, b.s)
    case Number(x) => b.Number? && x < b.n
  }

  /** `KeyLess` is a strict total order. */
  lemma KeyLessStrictTotal(a: Key, b: Key, c: Key)
    ensures !KeyLess(a, a)
    ensures KeyLess(a, b) ==> !KeyLess(b, a)
    ensures KeyLess(a, b) && KeyLess(b, c) ==> KeyLess(a, c)
    ensures a == b || KeyLess(a, b) || KeyLess(b, a)
  {
    if a.Text? {
      LexLessIrreflexive(a.s);
      if b.Text? {
        LexLessTotal(a.s, b.s);
        if KeyLess(a, b) && KeyLess(b, a) {
          LexLessTransitive(a.s, b.s, a.s);
        }
        if c.Text? && KeyLess(a, b) && KeyLess(b, c) {
          LexLessTransitive(a.s, b.s, c.s);
        }
      }
    }
  }

  /** The comparator returns a positive number for `(x, y)`: an element with
      key `x` is placed after one with key `y`. */
  predicate After(x: Key, y: Key, dir: Direction)
  {
    match dir
    case Asc => KeyLess(y, x)
    case Desc => KeyLess(x, y)
  }

  /** `After` never holds in both directions, nor between equal keys, and
      "not after" is transitive: the comparator is consistent. */
  lemma AfterConsistent(x: Key, y: Key, z: Key, dir: Direction)
    ensures !After(x, x, dir)
    ensures After(x, y, dir) ==> !After(y, x, dir)
    ensures !After(x, y, dir) && !After(y, z, dir) ==> !After(x, z, dir)
  {
    KeyLessStrictTotal(x, y, z);
    KeyLessStrictTotal(y, x, z);
    KeyLessStrictTotal(x, z, y);
    KeyLessStrictTotal(z, y, x);
    KeyLessStrictTotal(y, z, x);
    KeyLessStrictTotal(z, x, y);
  }

  // ---------------------------------------------------------------------
  // the sort, as a function

  /** Insertion of `x` behind the sorted `t`: `x` moves forward past every
      element placed after it and stops behind the first one that is not. */
  function Insert<T>(t: seq<T>, x: T, key: T -> Key, dir: Direction): seq<T>
    decreases |t|
  {
    if |t| == 0 || !After(key(t[|t| - 1]), key(x), dir) then t + [x]
    else Insert(t[..|t| - 1], x, key, dir) + [t[|t| - 1]]
  }

  /** The stable sort of `s` by `key` in direction `dir`. */
  function Sort<T>(s: seq<T>, key: T -> Key, dir: Direction): seq<T>
    decreases |s|
  {
    if |s| == 0 then [] else Insert(Sort(s[..|s| - 1], key, dir), s[|s| - 1], key, dir)
  }

  /** No element is placed after an element that follows it. */
  predicate Ordered<T>(s: seq<T>, key: T -> Key, dir: Direction)
  {
    forall i, j :: 0 <= i < j < |s| ==> !After(key(s[i]), key(s[j]), dir)
  }

  function HasKey<T>(key: T -> Key, k: Key): T -> bool
  {
    e => key(e) == k
  }

  /** The elements whose key is `k`, in their order in `s`. */
  function WithKey<T(==,!new)>(s: seq<T>, key: T -> Key, k: Key): seq<T>
  {
    Filter(s, HasKey(key, k))
  }

  lemma {:induction false} InsertPermutes<T>(t: seq<T>, x: T, key: T -> Key, dir: Direction)
    ensures multiset(Insert(t, x, key, dir)) == multiset(t) + multiset{x}
    decreases |t|
  {
    if |t| > 0 && After(key(t[|t| - 1]), key(x), dir) {
      InsertPermutes(t[..|t| - 1], x, key, dir);
      assert t == t[..|t| - 1] + [t[|t| - 1]];
    }
  }

  lemma {:induction false} InsertKeepsOrder<T>(t: seq<T>, x: T, key: T -> Key, dir: Direction)
    requires Ordered(t, key, dir)
    ensures Ordered(Insert(t, x, key, dir), key, dir)
    decreases |t|
  {
    var r := Insert(t, x, key, dir);
    if |t| == 0 {
    } else if !After(key(t[|t| - 1]), key(x), dir) {
      forall i, j | 0 <= i < j < |r| ensures !After(key(r[i]), key(r[j]), dir) {
        if j == |t| {
          AfterConsistent(key(t[i]), key(t[|t| - 1]), key(x), dir);
        }
      }
    } else {
      var last := t[|t| - 1];
      var t' := t[..|t| - 1];
      InsertKeepsOrder(t', x, key, dir);
      var front := Insert(t', x, key, dir);
      InsertPermutes(t', x, key, dir);
      forall i, j | 0 <= i < j < |r| ensures !After(key(r[i]), key(r[j]), dir) {
        if j == |r| - 1 {
          assert r[i] == front[i] && r[j] == last;
          assert r[i] in multiset(front);
          if r[i] == x {
            AfterConsistent(key(last), key(x), key(x), dir);
          } else {
            assert r[i] in t';
          }
        } else {
          assert r[i] == front[i] && r[j] == front[j];
        }
      }
    }
  }

  lemma {:induction false} InsertKeepsKeyOrder<T(!new)>(t: seq<T>, x: T, key: T -> Key, dir: Direction, k: Key)
    ensures WithKey(Insert(t, x, key, dir), key, k) == WithKey(t, key, k) + (if key(x) == k then [x] else [])
    decreases |t|
  {
    if |t| == 0 || !After(key(t[|t| - 1]), key(x), dir) {
      FilterAppend(t, x, HasKey(key, k));
    } else {
      var t' := t[..|t| - 1];
      InsertKeepsKeyOrder(t', x, key, dir, k);
      assert t' + [t[|t| - 1]] == t;
      KeyOrderPastLast(t', t[|t| - 1], x, key, dir, k);
    }
  }

  /** The step of `InsertKeepsKeyOrder` where `x` moves past `last`: the two
      have different keys, so their order within each key is unaffected. */
  lemma KeyOrderPastLast<T(!new)>(t: seq<T>, last: T, x: T, key: T -> Key, dir: Direction, k: Key)
    requires After(key(last), key(x), dir)
    requires WithKey(Insert(t, x, key, dir), key, k) == WithKey(t, key, k) + (if key(x) == k then [x] else [])
    ensures WithKey(Insert(t + [last], x, key, dir), key, k) == WithKey(t + [last], key, k) + (if key(x) == k then [x] else [])
  {
    var p := HasKey(key, k);
    var xs := if key(x) == k then [x] else [];
    var ls := if key(last) == k then [last] else [];
    var front := Insert(t, x, key, dir);
    AfterConsistent(key(last), key(x), key(x), dir);
    assert xs == [] || ls == [];
    assert (t + [last])[..|t|] == t;
    assert Insert(t + [last], x, key, dir) == front + [last];
    FilterAppend(front, last, p);
    FilterAppend(t, last, p);
    calc {
      Filter(front + [last], p);
      Filter(front, p) + ls;
      Filter(t, p) + xs + ls;
      Filter(t, p) + ls + xs;
    }
  }

  /** The sort is a permutation of its input. */
  lemma {:induction false} SortPermutes<T>(s: seq<T>, key: T -> Key, dir: Direction)
    ensures multiset(Sort(s, key, dir)) == multiset(s)
    decreases |s|
  {
    if |s| > 0 {
      SortPermutes(s[..|s| - 1], key, dir);
      InsertPermutes(Sort(s[..|s| - 1], key, dir), s[|s| - 1], key, dir);
      assert s == s[..|s| - 1] + [s[|s| - 1]];
    }
  }

  /** The sort puts no element before one that the comparator places ahead of it. */
  lemma {:induction false} SortOrders<T>(s: seq<T>, key: T -> Key, dir: Direction)
    ensures Ordered(Sort(s, key, dir), key, dir)
    decreases |s|
  {
    if |s| > 0 {
      SortOrders(s[..|s| - 1], key, dir);
      InsertKeepsOrder(Sort(s[..|s| - 1], key, dir), s[|s| - 1], key, dir);
    }
  }

  /** The sort is stable: for every key, the elements with that key appear in
      the result in the order they had in the input. */
  lemma {:induction false} SortIsStable<T(!new)>(s: seq<T>, key: T -> Key, dir: Direction, k: Key)
    ensures WithKey(Sort(s, key, dir), key, k) == WithKey(s, key, k)
    decreases |s|
  {
    if |s| > 0 {
      var s' := s[..|s| - 1];
      SortIsStable(s', key, dir, k);
      InsertKeepsKeyOrder(Sort(s', key, dir), s[|s| - 1], key, dir, k);
      FilterAppend(s', s[|s| - 1], HasKey(key, k));
      assert s' + [s[|s| - 1]] == s;
    }
  }

  // ---------------------------------------------------------------------
  // the sort, in place

  /** Moves `a[i]` forward into the sorted prefix `a[..i]`, shifting every
      element placed after it one position back. */
  method InsertInPlace<T>(a: array<T>, i: nat, key: T -> Key, dir: Direction)
    requires i < a.Length
    modifies a
    ensures a[..i + 1] == Insert(old(a[..i]), old(a[i]), key, dir)
    ensures a[i + 1..] == old(a[i + 1..])
  {
    var x := a[i];
    ghost var t := a[..i];
    var j := MakeRoom(a, i, x, key, dir);
    a[j] := x;
    InsertStops(t, j, x, key, dir);
    forall k | 0 <= k <= i
      ensures a[k] == (t[..j] + [x] + t[j..])[k]
    {
      if k > j {
        assert (t[..j] + [x] + t[j..])[k] == t[k - 1];
      }
    }
  }

  /** Where the insertion stops, `x` goes in. */
  lemma InsertStops<T>(t: seq<T>, j: nat, x: T, key: T -> Key, dir: Direction)
    requires j <= |t|
    requires Insert(t[..j], x, key, dir) + t[j..] == Insert(t, x, key, dir)
    requires j == 0 || !After(key(t[j - 1]), key(x), dir)
    ensures Insert(t, x, key, dir) == t[..j] + [x] + t[j..]
  {
  }

  /** The loop of the insertion: shifts back, one position each, the last
      elements of `a[..i]` that are placed after `x`, and returns the position
      left free for `x`. */
  method MakeRoom<T>(a: array<T>, i: nat, x: T, key: T -> Key, dir: Direction) returns (j: nat)
    requires i < a.Length
    modifies a
    ensures j <= i
    ensures forall k :: 0 <= k < j ==> a[k] == old(a[k])
    ensures forall k :: j < k <= i ==> a[k] == old(a[k - 1])
    ensures forall k :: i < k < a.Length ==> a[k] == old(a[k])
    ensures Insert(old(a[..i])[..j], x, key, dir) + old(a[..i])[j..] == Insert(old(a[..i]), x, key, dir)
    ensures j == 0 || !After(key(old(a[j - 1])), key(x), dir)
  {
    ghost var t := a[..i];
    j := i;
    assert t[..j] == t && t[j..] == [];
    while j > 0 && After(key(a[j - 1]), key(x), dir)
      invariant 0 <= j <= i
      invariant forall k :: 0 <= k < j ==> a[k] == t[k]
      invariant forall k :: j < k <= i ==> a[k] == t[k - 1]
      invariant forall k :: i < k < a.Length ==> a[k] == old(a[k])
      invariant Insert(t[..j], x, key, dir) + t[j..] == Insert(t, x, key, dir)
    {
      InsertShift(t[..j], t[j..], x, key, dir);
      assert t[..j][..j - 1] == t[..j - 1];
      assert [t[j - 1]] + t[j..] == t[j - 1..];
      a[j] := a[j - 1];
      j := j - 1;
    }
  }

  /** One step of the insertion: moving `x` past the last element of `u`,
      which is placed after it. */
  lemma InsertShift<T>(u: seq<T>, rest: seq<T>, x: T, key: T -> Key, dir: Direction)
    requires |u| > 0 && After(key(u[|u| - 1]), key(x), dir)
    ensures Insert(u[..|u| - 1], x, key, dir) + ([u[|u| - 1]] + rest) == Insert(u, x, key, dir) + rest
  {
  }

  /** Sorts `a` in place by insertion: after step `i` the first `i` elements
      are the sort of the first `i` original elements. */
  method SortInPlace<T>(a: array<T>, key: T -> Key, dir: Direction)
    modifies a
    ensures a[..] == Sort(old(a[..]), key, dir)
  {
    ghost var s := a[..];
    var i := 0;
    while i < a.Length
      invariant 0 <= i <= a.Length
      invariant a[..i] == Sort(s[..i], key, dir)
      invariant a[i..] == s[i..]
    {
      InsertInPlace(a, i, key, dir);
      assert s[..i + 1][..i] == s[..i];
      i := i + 1;
    }
    assert a[..] == a[..a.Length];
    assert s == s[..a.Length];
  }

  /** Sorts a copy of `s`: the sort of a freshly built array. */
  method SortedCopy<T>(s: seq<T>, key: T -> Key, dir: Direction) returns (r: seq<T>)
    ensures r == Sort(s, key, dir)
  {
    var a := new T[|s|](i requires 0 <= i < |s| => s[i]);
    assert a[..] == s;
    SortInPlace(a, key, dir);
    r := a[..];
  }
}
