/** The three sort modes of the listing pages: the comparators passed to
    `Array.prototype.sort` and the in-place sort of the copied array. */
module Sorting {
  import opened Nfts

  datatype Option<T> = None | Some(value: T)

  /** The labels the sort drop-down offers. */
  datatype SortOrder = RecentlyAdded | PriceLowToHigh | PriceHighToLow

  /** The `switch (activeSelect)` of the sort effect: a known label selects
      its order, any other string falls to the `default` branch. */
  function ModeOf(select: string): (o: Option<SortOrder>)
    ensures o == Some(RecentlyAdded) <==> select == "Recently Added"
    ensures o == Some(PriceLowToHigh) <==> select == "Price (Low to High)"
    ensures o == Some(PriceHighToLow) <==> select == "Price (High to Low)"
  {
    if select == "Recently Added" then Some(RecentlyAdded)
    else if select == "Price (Low to High)" then Some(PriceLowToHigh)
    else if select == "Price (High to Low)" then Some(PriceHighToLow)
    else None
  }

  /** The number an order sorts by, ascending. */
  function Key(o: SortOrder, nft: Nft): int
  {
    match o
    case RecentlyAdded => -nft.tokenId
    case PriceLowToHigh => nft.price
    case PriceHighToLow => -nft.price
  }

  /** The comparator: `b.tokenId - a.tokenId`, `a.price - b.price` or
      `b.price - a.price`. A negative result puts `a` first. */
  function Compare(o: SortOrder, a: Nft, b: Nft): (r: int)
    ensures r == Key(o, a) - Key(o, b)
  {
    match o
    case RecentlyAdded => b.tokenId - a.tokenId
    case PriceLowToHigh => a.price - b.price
    case PriceHighToLow => b.price - a.price
  }

  /** Every pair is in the order the comparator asks for. */
  ghost predicate SortedBy(o: SortOrder, s: seq<Nft>)
  {
    forall i, j :: 0 <= i < j < |s| ==> Compare(o, s[i], s[j]) <= 0
  }

  /** What each order means for the fields of the items. */
  lemma SortedByMeaning(s: seq<Nft>)
    ensures SortedBy(RecentlyAdded, s) <==> forall i, j :: 0 <= i < j < |s| ==> s[i].tokenId >= s[j].tokenId
    ensures SortedBy(PriceLowToHigh, s) <==> forall i, j :: 0 <= i < j < |s| ==> s[i].price <= s[j].price
    ensures SortedBy(PriceHighToLow, s) <==> forall i, j :: 0 <= i < j < |s| ==> s[i].price >= s[j].price
  {
  }

  /** Every pair of `s[..n]` is in the order of `o`. */
  ghost predicate PrefixSorted(s: seq<Nft>, o: SortOrder, n: int)
  {
    forall p, q :: 0 <= p < q < n && q < |s| ==> Key(o, s[p]) <= Key(o, s[q])
  }

  /** `sortedNfts.sort(comparator)`: an insertion sort in place on the array. */
  method SortInPlace(a: array<Nft>, o: SortOrder)
    modifies a
    ensures SortedBy(o, a[..])
    ensures multiset(a[..]) == old(multiset(a[..]))
  {
    var i := 0;
    while i < a.Length
      invariant 0 <= i <= a.Length
      invariant PrefixSorted(a[..], o, i)
      invariant multiset(a[..]) == old(multiset(a[..]))
    {
      Insert(a, o, i);
      i := i + 1;
    }
  }

  /** Moves `a[i]` left past every neighbour the comparator puts after it,
      so that `a[..i + 1]` is sorted; the cells right of `i` are untouched. */
  method Insert(a: array<Nft>, o: SortOrder, i: nat)
    requires i < a.Length
    requires PrefixSorted(a[..], o, i)
    modifies a
    ensures PrefixSorted(a[..], o, i + 1)
    ensures multiset(a[..]) == old(multiset(a[..]))
    ensures a[i + 1..] == old(a[i + 1..])
  {
    var j: nat := i;
    InsertStart(a[..], o, i);
    while j > 0 && Compare(o, a[j - 1], a[j]) > 0
      invariant Inserting(a[..], old(a[..]), o, i, j)
    {
      ghost var before := a[..];
      Swap(a, j - 1);
      SwapStep(before, a[..], old(a[..]), o, i, j);
      j := j - 1;
    }
    InsertDone(a[..], old(a[..]), o, i, j);
  }

  /** The state of `Insert`'s loop over the original contents `orig`:
      `s[..i + 1]` is sorted except at the moving element `s[j]`, which is
      below everything to its right; `s` is a permutation of `orig` that
      agrees with it right of `i`. */
  ghost predicate Inserting(s: seq<Nft>, orig: seq<Nft>, o: SortOrder, i: nat, j: nat)
  {
    && j <= i < |s| == |orig|
    && (forall p, q :: 0 <= p < q <= i && p != j && q != j ==> Key(o, s[p]) <= Key(o, s[q]))
    && (forall q :: j < q <= i ==> Key(o, s[j]) < Key(o, s[q]))
    && multiset(s) == multiset(orig)
    && s[i + 1..] == orig[i + 1..]
  }

  /** Before the first swap the moving element is `s[i]` and nothing
      right of it is in the prefix. */
  lemma InsertStart(s: seq<Nft>, o: SortOrder, i: nat)
    requires i < |s| && PrefixSorted(s, o, i)
    ensures Inserting(s, s, o, i, i)
  {
  }

  /** Swapping the moving element with a greater left neighbour keeps the
      loop state, one place further left. */
  lemma SwapStep(s: seq<Nft>, t: seq<Nft>, orig: seq<Nft>, o: SortOrder, i: nat, j: nat)
    requires Inserting(s, orig, o, i, j) && 0 < j && Key(o, s[j - 1]) > Key(o, s[j])
    requires t == s[j - 1 := s[j]][j := s[j - 1]]
    requires multiset(t) == multiset(s)
    ensures Inserting(t, orig, o, i, j - 1)
  {
    assert t[i + 1..] == s[i + 1..];
  }

  /** When the moving element has stopped, the whole prefix `s[..i + 1]`
      is sorted. */
  lemma InsertDone(s: seq<Nft>, orig: seq<Nft>, o: SortOrder, i: nat, j: nat)
    requires Inserting(s, orig, o, i, j)
    requires j > 0 ==> Key(o, s[j - 1]) <= Key(o, s[j])
    ensures PrefixSorted(s, o, i + 1)
    ensures multiset(s) == multiset(orig) && s[i + 1..] == orig[i + 1..]
  {
  }

  /** Exchanges two neighbours. */
  method Swap(a: array<Nft>, j: nat)
    requires j + 1 < a.Length
    modifies a
    ensures a[..] == old(a[..])[j := old(a[j + 1])][j + 1 := old(a[j])]
    ensures multiset(a[..]) == old(multiset(a[..]))
  {
    a[j], a[j + 1] := a[j + 1], a[j];
  }
}
