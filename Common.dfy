/** Shared value wrappers. `Option` stands for the source's `null`/`undefined`
    results and for JavaScript's NaN where a numeric parse can fail. */
module Common {

  datatype Option<+T> = None | Some(value: T) {
    function GetOr(default: T): T {
      match this
      case Some(v) => v
      case None => default
    }
  }

  /** A step that either yields a value or throws an error with a message. */
  datatype Result<+T> = Ok(value: T) | Err(message: string)

  /** `Array.prototype.reverse` on a copy. */
  function Reverse<T>(s: seq<T>): (r: seq<T>)
    ensures |r| == |s|
    ensures forall i :: 0 <= i < |s| ==> r[i] == s[|s| - 1 - i]
  {
    if s == [] then [] else Reverse(s[1..]) + [s[0]]
  }

  lemma ReverseReverse<T>(s: seq<T>)
    ensures Reverse(Reverse(s)) == s
  {
    var r := Reverse(Reverse(s));
    assert |r| == |s|;
    forall i | 0 <= i < |s| ensures r[i] == s[i] {
    }
  }

  /** An ordering on keys that is total and transitive: what a database
      `orderBy` or a comparator `.sort` needs to give a sorted list. */
  ghost predicate TotalPreorder<K(!new)>(le: (K, K) -> bool) {
    (forall a, b :: le(a, b) || le(b, a))
    && forall a, b, c :: le(a, b) && le(b, c) ==> le(a, c)
  }

  /** Every element comes, by its key, no later than every element after it. */
  predicate SortedOn<T, K>(xs: seq<T>, key: T -> K, le: (K, K) -> bool) {
    forall i, j :: 0 <= i < j < |xs| ==> le(key(xs[i]), key(xs[j]))
  }

  /** Keeping the head of a sorted list in front of a sorted selection of
      its tail gives a sorted list. */
  lemma SortedKeepHead<T, K>(xs: seq<T>, rest: seq<T>, key: T -> K, le: (K, K) -> bool)
    requires |xs| > 0 && SortedOn(xs, key, le) && SortedOn(rest, key, le)
    requires forall s :: s in rest ==> s in xs[1..]
    ensures SortedOn([xs[0]] + rest, key, le)
  {
    var r := [xs[0]] + rest;
    forall i, j | 0 <= i < j < |r| ensures le(key(r[i]), key(r[j])) {
      if i == 0 {
        assert r[j] in xs[1..];
        var k :| 0 <= k < |xs[1..]| && xs[1..][k] == r[j];
        assert xs[k + 1] == r[j];
      } else {
        assert r[i] == rest[i - 1] && r[j] == rest[j - 1];
      }
    }
  }

  /** Puts `x` in front of the first element it does not come after. */
  function InsertOn<T, K(!new)>(x: T, ys: seq<T>, key: T -> K, le: (K, K) -> bool): (r: seq<T>)
    ensures multiset(r) == multiset(ys) + multiset{x}
    ensures TotalPreorder(le) && SortedOn(ys, key, le) ==> SortedOn(r, key, le)
  {
    if ys == [] || le(key(x), key(ys[0])) then
      var r := [x] + ys;
      assert TotalPreorder(le) && SortedOn(ys, key, le) ==> SortedOn(r, key, le) by {
        if TotalPreorder(le) && SortedOn(ys, key, le) { PrependSorted(x, ys, key, le); }
      }
      r
    else
      assert ys == [ys[0]] + ys[1..];
      var tail := InsertOn(x, ys[1..], key, le);
      var r := [ys[0]] + tail;
      assert TotalPreorder(le) && SortedOn(ys, key, le) ==> SortedOn(r, key, le) by {
        if TotalPreorder(le) && SortedOn(ys, key, le) {
          assert SortedOn(ys[1..], key, le);
          KeepHeadBeforeInserted(x, ys, tail, key, le);
        }
      }
      r
  }

  /** An element no later than the head of a sorted list can go first. */
  lemma PrependSorted<T, K(!new)>(x: T, ys: seq<T>, key: T -> K, le: (K, K) -> bool)
    requires TotalPreorder(le) && SortedOn(ys, key, le) && (ys == [] || le(key(x), key(ys[0])))
    ensures SortedOn([x] + ys, key, le)
  {
    var r := [x] + ys;
    forall i, j | 0 <= i < j < |r| ensures le(key(r[i]), key(r[j])) {
      if i == 0 && j > 1 { assert le(key(ys[0]), key(ys[j - 1])); }
    }
  }

  /** The head of a sorted list stays first when `x`, which it comes before,
      is inserted into the rest. */
  lemma KeepHeadBeforeInserted<T, K(!new)>(x: T, ys: seq<T>, tail: seq<T>, key: T -> K, le: (K, K) -> bool)
    requires |ys| > 0 && TotalPreorder(le) && SortedOn(ys, key, le) && !le(key(x), key(ys[0]))
    requires SortedOn(tail, key, le) && multiset(tail) == multiset(ys[1..]) + multiset{x}
    ensures SortedOn([ys[0]] + tail, key, le)
  {
    var r := [ys[0]] + tail;
    forall j | 0 < j < |r| ensures le(key(ys[0]), key(r[j])) {
      assert r[j] in multiset(tail);
      if r[j] != x {
        assert r[j] in multiset(ys[1..]);
        var k :| 0 <= k < |ys[1..]| && ys[1..][k] == r[j];
        assert ys[k + 1] == r[j];
      }
    }
    forall i, j | 0 <= i < j < |r| ensures le(key(r[i]), key(r[j])) {
      if i > 0 { assert r[i] == tail[i - 1] && r[j] == tail[j - 1]; }
    }
  }

  /** Insertion sort by key; elements with equal keys keep their order. */
  function SortOn<T, K(!new)>(xs: seq<T>, key: T -> K, le: (K, K) -> bool): (r: seq<T>)
    ensures multiset(r) == multiset(xs)
    ensures TotalPreorder(le) ==> SortedOn(r, key, le)
  {
    if xs == [] then []
    else
      assert xs == [xs[0]] + xs[1..];
      InsertOn(xs[0], SortOn(xs[1..], key, le), key, le)
  }

  /** A sorted list's elements are exactly the input's. */
  lemma SortOnMembers<T, K(!new)>(xs: seq<T>, key: T -> K, le: (K, K) -> bool)
    ensures forall x :: x in SortOn(xs, key, le) <==> x in xs
  {
    var r := SortOn(xs, key, le);
    assert forall x :: x in r <==> x in multiset(r);
    assert forall x :: x in xs <==> x in multiset(xs);
  }

  /** A sequence that extends `b + [x]` also extends `b`. */
  lemma PrefixOfLonger<T>(a: seq<T>, b: seq<T>, x: T)
    requires |a| >= |b| + 1 && a[..|b| + 1] == b + [x]
    ensures a[..|b|] == b
  {
    assert a[..|b|] == a[..|b| + 1][..|b|];
  }

  /** A prefix one element longer is the shorter prefix and that element. */
  lemma TakeOneMore<T>(s: seq<T>, k: nat)
    requires k < |s|
    ensures s[..k + 1] == s[..k] + [s[k]]
  {
  }

  /** `a` is `b` with some elements dropped and the rest in their order. */
  predicate Subsequence<T(==)>(a: seq<T>, b: seq<T>)
    decreases |b|
  {
    if a == [] then true
    else if b == [] then false
    else if a[0] == b[0] then Subsequence(a[1..], b[1..])
    else Subsequence(a, b[1..])
  }

  /** The position, from `from` on, of the first element that fails `ok`. */
  function FirstFailing<T>(xs: seq<T>, from: nat, ok: T -> bool): (r: Option<nat>)
    requires from <= |xs|
    ensures r.Some? ==> from <= r.value < |xs| && !ok(xs[r.value])
                        && forall j :: from <= j < r.value ==> ok(xs[j])
    ensures r.None? <==> forall i :: from <= i < |xs| ==> ok(xs[i])
    decreases |xs| - from
  {
    if from == |xs| then None
    else if !ok(xs[from]) then Some(from)
    else FirstFailing(xs, from + 1, ok)
  }
}
