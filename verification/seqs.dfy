/** Sequence helpers shared by the model: a left-to-right filter, as
    `Array.prototype.filter` walks an array, and what "keeps input order" means. */
module Seqs {

  /** The elements of `s` that satisfy `p`, scanned from first to last. */
  function Filter<T(!new)>(p: T -> bool, s: seq<T>): (r: seq<T>)
    ensures |r| <= |s|
    decreases |s|
  {
    if s == [] then []
    else
      var init, last := s[..|s| - 1], s[|s| - 1];
      Filter(p, init) + (if p(last) then [last] else [])
  }

  /** The filter keeps exactly the elements that satisfy `p`, and it is
      empty exactly when nothing does. */
  lemma {:induction false} FilterMembers<T(!new)>(p: T -> bool, s: seq<T>)
    ensures forall x :: x in Filter(p, s) <==> x in s && p(x)
    ensures Filter(p, s) == [] <==> forall x :: x in s ==> !p(x)
    decreases |s|
  {
    if s != [] {
      var init, last := s[..|s| - 1], s[|s| - 1];
      assert s == init + [last];
      FilterMembers(p, init);
    }
  }

  /** A filter takes each element of its input at most as often as it occurs there. */
  lemma {:induction false} FilterSubMultiset<T(!new)>(p: T -> bool, s: seq<T>)
    ensures multiset(Filter(p, s)) <= multiset(s)
    decreases |s|
  {
    if s != [] {
      var init, last := s[..|s| - 1], s[|s| - 1];
      assert s == init + [last];
      FilterSubMultiset(p, init);
      FilterSnoc(p, init, last);
    }
  }

  /** Appending one element extends the filter by that element or by nothing. */
  lemma FilterSnoc<T(!new)>(p: T -> bool, s: seq<T>, x: T)
    ensures Filter(p, s + [x]) == Filter(p, s) + (if p(x) then [x] else [])
  {
    assert (s + [x])[..|s|] == s;
  }

  /** `idx` lists, in increasing order, the positions of `s` that `r` was taken from. */
  ghost predicate Embeds<T>(r: seq<T>, s: seq<T>, idx: seq<nat>)
  {
    && |idx| == |r|
    && (forall i :: 0 <= i < |idx| ==> idx[i] < |s| && s[idx[i]] == r[i])
    && (forall i, j :: 0 <= i < j < |idx| ==> idx[i] < idx[j])
  }

  /** A filter keeps the relative order of the elements it keeps: `idx`
      lists, in increasing order, exactly the positions of `s` whose element
      satisfies `p`, and the filter is the elements at those positions. */
  lemma {:induction false} FilterKeepsOrder<T(!new)>(p: T -> bool, s: seq<T>) returns (idx: seq<nat>)
    ensures Embeds(Filter(p, s), s, idx)
    ensures forall i :: 0 <= i < |s| && p(s[i]) ==> i in idx
    ensures forall i :: 0 <= i < |idx| ==> p(s[idx[i]])
    decreases |s|
  {
    if s == [] {
      idx := [];
    } else {
      var init, last := s[..|s| - 1], s[|s| - 1];
      var prev := FilterKeepsOrder(p, init);
      assert s == init + [last];
      FilterSnoc(p, init, last);
      var r, r0 := Filter(p, s), Filter(p, init);
      assert forall i :: 0 <= i < |prev| ==> s[prev[i]] == init[prev[i]];
      if p(last) {
        idx := prev + [|s| - 1];
        assert r == r0 + [last];
        forall i | 0 <= i < |idx| ensures idx[i] < |s| && s[idx[i]] == r[i] {
          if i < |prev| {
            assert s[prev[i]] == init[prev[i]];
          }
        }
      } else {
        idx := prev;
        assert r == r0;
      }
      forall i | 0 <= i < |s| && p(s[i]) ensures i in idx {
        if i < |init| {
          assert init[i] == s[i];
        }
      }
    }
  }
}
