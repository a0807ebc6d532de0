/** The list shapes the stores and pages build with `Array.prototype.filter`
    and `Array.prototype.map`: keeping the elements that pass a test, and
    rewriting exactly the elements that a selector picks. */
module Lists {

  /** `a` is `b` with some elements left out, the rest in their order. */
  ghost predicate IsSubsequence<T>(a: seq<T>, b: seq<T>)
    decreases |b|
  {
    if a == [] then true
    else if b == [] then false
    else if a[0] == b[0] then IsSubsequence(a[1..], b[1..])
    else IsSubsequence(a, b[1..])
  }

  /** Every list is a subsequence of itself. */
  lemma {:induction false} SubsequenceReflexive<T>(s: seq<T>)
    ensures IsSubsequence(s, s)
    decreases |s|
  {
    if s != [] {
      SubsequenceReflexive(s[1..]);
    }
  }

  /** `s.filter(keep)`. */
  function Filter<T>(s: seq<T>, keep: T -> bool): (r: seq<T>)
    ensures |r| <= |s|
    ensures forall i :: 0 <= i < |r| ==> keep(r[i]) && r[i] in s
    ensures forall i :: 0 <= i < |s| && keep(s[i]) ==> s[i] in r
    decreases |s|
  {
    if s == [] then []
    else if keep(s[0]) then [s[0]] + Filter(s[1..], keep)
    else Filter(s[1..], keep)
  }

  /** Filtering never reorders: what it keeps is a subsequence of the input. */
  lemma {:induction false} FilterIsSubsequence<T>(s: seq<T>, keep: T -> bool)
    ensures IsSubsequence(Filter(s, keep), s)
    decreases |s|
  {
    if s != [] {
      FilterIsSubsequence(s[1..], keep);
      var f := Filter(s, keep);
      if keep(s[0]) {
        assert f[0] == s[0] && f[1..] == Filter(s[1..], keep);
      } else if f != [] && f[0] == s[0] {
        SubsequenceOfTail(f, s);
      }
    }
  }

  /** A subsequence of the tail whose head equals the list's head is still a subsequence. */
  lemma {:induction false} SubsequenceOfTail<T>(a: seq<T>, b: seq<T>)
    requires b != [] && IsSubsequence(a, b[1..])
    ensures IsSubsequence(a, b)
    decreases 2 * |b|
  {
    if a != [] && a[0] == b[0] {
      SubsequenceDropHead(a, b[1..]);
    }
  }

  lemma {:induction false} SubsequenceDropHead<T>(a: seq<T>, b: seq<T>)
    requires a != [] && IsSubsequence(a, b)
    ensures IsSubsequence(a[1..], b)
    decreases 2 * |b| + 1
  {
    if a[0] == b[0] {
      if a[1..] != [] {
        SubsequenceOfTail(a[1..], b);
      }
    } else {
      SubsequenceDropHead(a, b[1..]);
      if a[1..] != [] {
        SubsequenceOfTail(a[1..], b);
      }
    }
  }

  /** Filtering keeps everything exactly when every element passes. */
  lemma {:induction false} FilterAllKept<T>(s: seq<T>, keep: T -> bool)
    ensures Filter(s, keep) == s <==> forall i :: 0 <= i < |s| ==> keep(s[i])
    decreases |s|
  {
    if s != [] {
      FilterAllKept(s[1..], keep);
      if forall i :: 0 <= i < |s| ==> keep(s[i]) {
        assert forall i :: 0 <= i < |s[1..]| ==> keep(s[1..][i]);
      } else if keep(s[0]) {
        var i :| 0 <= i < |s| && !keep(s[i]);
        assert !keep(s[1..][i - 1]);
      } else {
        assert |Filter(s, keep)| < |s|;
      }
    }
  }

  /** Filtering distributes over concatenation. */
  lemma {:induction false} FilterAppend<T>(a: seq<T>, b: seq<T>, keep: T -> bool)
    ensures Filter(a + b, keep) == Filter(a, keep) + Filter(b, keep)
    decreases |a|
  {
    if a == [] {
      assert a + b == b;
    } else {
      var ab := a + b;
      assert ab[0] == a[0] && ab[1..] == a[1..] + b;
      FilterAppend(a[1..], b, keep);
      if keep(a[0]) {
        assert Filter(ab, keep) == [a[0]] + Filter(a[1..] + b, keep);
        assert Filter(a, keep) == [a[0]] + Filter(a[1..], keep);
      } else {
        assert Filter(ab, keep) == Filter(a[1..] + b, keep);
        assert Filter(a, keep) == Filter(a[1..], keep);
      }
    }
  }

  /** The number of elements that pass a test. */
  function Count<T>(s: seq<T>, test: T -> bool): (n: nat)
    ensures n <= |s|
  {
    |Filter(s, test)|
  }

  lemma CountAppend<T>(a: seq<T>, b: seq<T>, test: T -> bool)
    ensures Count(a + b, test) == Count(a, test) + Count(b, test)
  {
    FilterAppend(a, b, test);
  }

  lemma CountCons<T>(x: T, rest: seq<T>, test: T -> bool)
    ensures Count([x] + rest, test) == (if test(x) then 1 else 0) + Count(rest, test)
  {
    assert ([x] + rest)[1..] == rest;
  }

  /** A stricter test never passes more elements. */
  lemma {:induction false} CountStricter<T>(s: seq<T>, strict: T -> bool, loose: T -> bool)
    requires forall x :: strict(x) ==> loose(x)
    ensures Count(s, strict) <= Count(s, loose)
    decreases |s|
  {
    if s != [] {
      CountStricter(s[1..], strict, loose);
      CountCons(s[0], s[1..], strict);
      CountCons(s[0], s[1..], loose);
      assert s == [s[0]] + s[1..];
    }
  }

  /** `s.map(x => select(x) ? update(x) : x)`. */
  function MapWhere<T>(s: seq<T>, select: T -> bool, update: T -> T): (r: seq<T>)
  {
    seq(|s|, i requires 0 <= i < |s| => if select(s[i]) then update(s[i]) else s[i])
  }

  /** The list keeps its length and its order; the selected elements are
      updated and all the others are left as they were. */
  lemma MapWhereShape<T>(s: seq<T>, select: T -> bool, update: T -> T)
    ensures |MapWhere(s, select, update)| == |s|
    ensures forall i :: 0 <= i < |s| && select(s[i]) ==> MapWhere(s, select, update)[i] == update(s[i])
    ensures forall i :: 0 <= i < |s| && !select(s[i]) ==> MapWhere(s, select, update)[i] == s[i]
  {
  }

  lemma MapWhereCons<T>(s: seq<T>, select: T -> bool, update: T -> T)
    requires s != []
    ensures MapWhere(s, select, update) ==
      [if select(s[0]) then update(s[0]) else s[0]] + MapWhere(s[1..], select, update)
  {
  }
}
