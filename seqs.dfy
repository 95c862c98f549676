/**
 * `Array.prototype.filter` and the facts about it that the list pipeline of
 * the vault view needs: splitting by a test is a permutation, filtering
 * distributes over concatenation, and a sequence whose passing elements all
 * come first is the passing ones followed by the others.
 */
module Seqs {

  /** `s.filter(p)`. */
  function Filter<T(!new)>(p: T -> bool, s: seq<T>): (r: seq<T>)
    ensures forall x :: x in r <==> x in s && p(x)
    ensures |r| <= |s|
  {
    if s == [] then [] else (if p(s[0]) then [s[0]] else []) + Filter(p, s[1..])
  }

  /** `s.filter(x => !p(x))`. */
  function FilterOut<T(!new)>(p: T -> bool, s: seq<T>): (r: seq<T>)
    ensures forall x :: x in r <==> x in s && !p(x)
    ensures |r| <= |s|
  {
    if s == [] then [] else (if p(s[0]) then [] else [s[0]]) + FilterOut(p, s[1..])
  }

  /** `s.filter(x => !removed.includes(x))`. */
  function Exclude<T(==,!new)>(s: seq<T>, removed: seq<T>): (r: seq<T>)
    ensures forall x :: x in r <==> x in s && x !in removed
  {
    if s == [] then [] else (if s[0] in removed then [] else [s[0]]) + Exclude(s[1..], removed)
  }

  lemma {:induction false} FilterAppend<T(!new)>(p: T -> bool, a: seq<T>, b: seq<T>)
    ensures Filter(p, a + b) == Filter(p, a) + Filter(p, b)
  {
    if a == [] {
      assert a + b == b;
    } else {
      var ab := a + b;
      assert ab[0] == a[0] && ab[1..] == a[1..] + b;
      FilterAppend(p, a[1..], b);
      var head := if p(a[0]) then [a[0]] else [];
      calc {
        Filter(p, ab);
        head + Filter(p, a[1..] + b);
        head + (Filter(p, a[1..]) + Filter(p, b));
        (head + Filter(p, a[1..])) + Filter(p, b);
      }
    }
  }

  lemma {:induction false} FilterOutAppend<T(!new)>(p: T -> bool, a: seq<T>, b: seq<T>)
    ensures FilterOut(p, a + b) == FilterOut(p, a) + FilterOut(p, b)
  {
    if a == [] {
      assert a + b == b;
    } else {
      var ab := a + b;
      assert ab[0] == a[0] && ab[1..] == a[1..] + b;
      FilterOutAppend(p, a[1..], b);
      var head := if p(a[0]) then [] else [a[0]];
      calc {
        FilterOut(p, ab);
        head + FilterOut(p, a[1..] + b);
        head + (FilterOut(p, a[1..]) + FilterOut(p, b));
        (head + FilterOut(p, a[1..])) + FilterOut(p, b);
      }
    }
  }

  /** The passing and the failing elements together are a permutation of the sequence. */
  lemma {:induction false} FilterSplitIsPermutation<T(!new)>(p: T -> bool, s: seq<T>)
    ensures multiset(Filter(p, s)) + multiset(FilterOut(p, s)) == multiset(s)
  {
    if s != [] {
      var t := s[1..];
      var pass, fail := Filter(p, t), FilterOut(p, t);
      FilterSplitIsPermutation(p, t);
      assert multiset(s) == multiset{s[0]} + multiset(t) by {
        assert s == [s[0]] + t;
      }
      if p(s[0]) {
        assert multiset(Filter(p, s)) == multiset{s[0]} + multiset(pass) by {
          assert Filter(p, s) == [s[0]] + pass;
        }
        assert FilterOut(p, s) == fail;
      } else {
        assert Filter(p, s) == pass;
        assert multiset(FilterOut(p, s)) == multiset{s[0]} + multiset(fail) by {
          assert FilterOut(p, s) == [s[0]] + fail;
        }
      }
    }
  }

  lemma {:induction false} FilterAllPass<T(!new)>(p: T -> bool, s: seq<T>)
    requires forall i :: 0 <= i < |s| ==> p(s[i])
    ensures Filter(p, s) == s && FilterOut(p, s) == []
  {
    if s != [] {
      FilterAllPass(p, s[1..]);
      assert [s[0]] + s[1..] == s;
    }
  }

  lemma {:induction false} FilterNonePass<T(!new)>(p: T -> bool, s: seq<T>)
    requires forall i :: 0 <= i < |s| ==> !p(s[i])
    ensures Filter(p, s) == [] && FilterOut(p, s) == s
  {
    if s != [] {
      FilterNonePass(p, s[1..]);
      assert [s[0]] + s[1..] == s;
    }
  }

  /** No failing element comes before a passing one. */
  predicate PassingFirst<T(!new)>(p: T -> bool, r: seq<T>)
  {
    forall i, j :: 0 <= i < j < |r| ==> p(r[i]) || !p(r[j])
  }

  /** The index of the first failing element, or the length when every element passes. */
  function FirstFailing<T(!new)>(p: T -> bool, r: seq<T>): (k: nat)
    ensures k <= |r|
    ensures forall i :: 0 <= i < k ==> p(r[i])
    ensures k < |r| ==> !p(r[k])
  {
    if r == [] || !p(r[0]) then 0 else 1 + FirstFailing(p, r[1..])
  }

  /** A sequence whose first `k` elements pass and whose others fail is its passing elements followed by its failing ones. */
  lemma SplitAtBoundary<T(!new)>(p: T -> bool, r: seq<T>, k: nat)
    requires k <= |r|
    requires forall i :: 0 <= i < k ==> p(r[i])
    requires forall i :: k <= i < |r| ==> !p(r[i])
    ensures r == Filter(p, r) + FilterOut(p, r)
  {
    var pass, fail := r[..k], r[k..];
    assert r == pass + fail;
    assert Filter(p, pass) == pass && FilterOut(p, pass) == [] by {
      FilterAllPass(p, pass);
    }
    assert Filter(p, fail) == [] && FilterOut(p, fail) == fail by {
      forall i | 0 <= i < |fail| ensures !p(fail[i]) {
        assert fail[i] == r[k + i];
      }
      FilterNonePass(p, fail);
    }
    FilterAppend(p, pass, fail);
    FilterOutAppend(p, pass, fail);
    calc {
      Filter(p, r) + FilterOut(p, r);
      (Filter(p, pass) + Filter(p, fail)) + (FilterOut(p, pass) + FilterOut(p, fail));
      (pass + []) + ([] + fail);
      { assert pass + [] == pass && [] + fail == fail; }
      pass + fail;
    }
  }

  /** In a passing-first sequence every element from the first failing one on fails. */
  lemma FailingAfterFirstFailing<T(!new)>(p: T -> bool, r: seq<T>)
    requires PassingFirst(p, r)
    ensures forall i :: FirstFailing(p, r) <= i < |r| ==> !p(r[i])
  {
    var k := FirstFailing(p, r);
    forall i | k <= i < |r| ensures !p(r[i]) {
      assert p(r[k]) || !p(r[i]);
    }
  }

  /** A passing-first sequence is its passing elements followed by its failing ones. */
  lemma PassingFirstSplits<T(!new)>(p: T -> bool, r: seq<T>)
    requires PassingFirst(p, r)
    ensures r == Filter(p, r) + FilterOut(p, r)
  {
    FailingAfterFirstFailing(p, r);
    SplitAtBoundary(p, r, FirstFailing(p, r));
  }

  /** Passing elements first, then the failing ones: the split is in that order and each part keeps its order. */
  lemma SplitIsPassingFirst<T(!new)>(p: T -> bool, s: seq<T>)
    ensures PassingFirst(p, Filter(p, s) + FilterOut(p, s))
    ensures Filter(p, Filter(p, s) + FilterOut(p, s)) == Filter(p, s)
    ensures FilterOut(p, Filter(p, s) + FilterOut(p, s)) == FilterOut(p, s)
  {
    var pass, fail := Filter(p, s), FilterOut(p, s);
    var r := pass + fail;
    forall i, j | 0 <= i < j < |r| ensures p(r[i]) || !p(r[j]) {
      if i < |pass| { assert r[i] in pass; } else { assert r[j] in fail; }
    }
    FilterAppend(p, pass, fail);
    FilterOutAppend(p, pass, fail);
    FilterAllPass(p, pass);
    FilterNonePass(p, fail);
  }
}
