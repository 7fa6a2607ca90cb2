/** Order-preserving selection from a sequence, and the facts the model needs about it. */
module Seqs {

  /** The elements of s that satisfy p, in their original order. */
  function Filter<T>(s: seq<T>, p: T -> bool): (r: seq<T>)
    ensures |r| <= |s|
    ensures forall i | 0 <= i < |r| :: p(r[i])
  {
    if s == [] then [] else (if p(s[0]) then [s[0]] else []) + Filter(s[1..], p)
  }

  /** One past the index of the last element of s[..n] that satisfies p, or 0 when none does. */
  function LastEnd<T>(s: seq<T>, p: T -> bool, n: nat): (k: nat)
    requires n <= |s|
    ensures k <= n
    ensures k > 0 ==> p(s[k - 1])
    ensures forall j | k <= j < n :: !p(s[j])
  {
    if n == 0 then 0
    else if p(s[n - 1]) then n
    else LastEnd(s, p, n - 1)
  }

  /** The only k meeting LastEnd's contract is LastEnd itself. */
  lemma LastEndUnique<T>(s: seq<T>, p: T -> bool, n: nat, k: nat)
    requires k <= n <= |s|
    requires k > 0 ==> p(s[k - 1])
    requires forall j | k <= j < n :: !p(s[j])
    ensures LastEnd(s, p, n) == k
  {
    var r := LastEnd(s, p, n);
    if r > 0 {
      assert p(s[r - 1]);
    }
    if k > 0 {
      assert p(s[k - 1]);
    }
  }

  /** Removing an element that fails p, with none meeting p after it, keeps LastEnd. */
  lemma RemoveAtLastEnd<T>(s: seq<T>, p: T -> bool, i: nat)
    requires i < |s| && !p(s[i])
    requires forall j | i < j < |s| :: !p(s[j])
    ensures LastEnd(s, p, |s|) <= i
    ensures LastEnd(s[..i] + s[i + 1..], p, |s| - 1) == LastEnd(s, p, |s|)
  {
    var s' := s[..i] + s[i + 1..];
    var k := LastEnd(s, p, |s|);
    if k > 0 {
      assert p(s[k - 1]);
      assert s'[k - 1] == s[k - 1];
    }
    forall j | k <= j < |s'| ensures !p(s'[j]) {
      if j < i {
        assert s'[j] == s[j];
      } else {
        assert s'[j] == s[j + 1];
      }
    }
    LastEndUnique(s', p, |s'|, k);
  }

  lemma AppendAssoc<T>(a: seq<T>, b: seq<T>, c: seq<T>)
    ensures (a + b) + c == a + (b + c)
  {
  }

  lemma AppendEmpty<T>(a: seq<T>)
    ensures a + [] == a
  {
  }

  /** One more element of s copied after a and the first i elements of s. */
  lemma PrefixExtend<T>(a: seq<T>, s: seq<T>, i: nat)
    requires i < |s|
    ensures (a + s[..i]) + [s[i]] == a + s[..i + 1]
  {
    assert s[..i + 1] == s[..i] + [s[i]];
  }

  lemma PrefixAll<T>(s: seq<T>)
    ensures s[..|s|] == s
  {
  }

  lemma {:induction false} FilterAppend<T>(a: seq<T>, b: seq<T>, p: T -> bool)
    ensures Filter(a + b, p) == Filter(a, p) + Filter(b, p)
  {
    if a == [] {
      assert a + b == b;
    } else {
      assert (a + b)[0] == a[0];
      assert (a + b)[1..] == a[1..] + b;
      FilterAppend(a[1..], b, p);
    }
  }

  lemma {:induction false} FilterMember<T>(s: seq<T>, p: T -> bool, x: T)
    ensures x in Filter(s, p) <==> x in s && p(x)
  {
    if s != [] {
      FilterMember(s[1..], p, x);
      assert s == [s[0]] + s[1..];
    }
  }

  /** Selecting with a predicate every element meets changes nothing. */
  lemma {:induction false} FilterAll<T>(s: seq<T>, p: T -> bool)
    requires forall i | 0 <= i < |s| :: p(s[i])
    ensures Filter(s, p) == s
  {
    if s != [] {
      FilterAll(s[1..], p);
    }
  }

  /** Selecting with a predicate no element meets gives nothing. */
  lemma {:induction false} FilterNone<T>(s: seq<T>, p: T -> bool)
    requires forall i | 0 <= i < |s| :: !p(s[i])
    ensures Filter(s, p) == []
  {
    if s != [] {
      FilterNone(s[1..], p);
    }
  }

  /** A first selection by p loses nothing a later selection by q would keep. */
  lemma {:induction false} FilterFilter<T>(s: seq<T>, p: T -> bool, q: T -> bool)
    requires forall i | 0 <= i < |s| :: q(s[i]) ==> p(s[i])
    ensures Filter(Filter(s, p), q) == Filter(s, q)
  {
    if s != [] {
      FilterFilter(s[1..], p, q);
      var head := if p(s[0]) then [s[0]] else [];
      FilterAppend(head, Filter(s[1..], p), q);
    }
  }
}
