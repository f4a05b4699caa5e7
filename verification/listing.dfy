/** The listing pages (`pages/index.js`, the home page, and
    `pages/my-nfts.js`): the state behind the card grid, its load, sort,
    search and clear handlers, the "Top Sellers" row and the empty-state tests.
    Both pages declare the same state and the same handlers, so one class
    models both; the two constructors give each page's initial state. */
module Listing {
  import opened Nfts
  import opened Sorting
  import opened NameSearch
  import opened TopCreators

  /** One card of the "Top Sellers" row. */
  datatype CreatorCard = CreatorCard(rank: nat, seller: string, sum: int)

  class ListingState {
    /** The items shown: sorted, filtered or the full list. */
    var nfts: seq<Nft>
    /** The full list as fetched. */
    var nftsCopy: seq<Nft>
    /** The label picked in the sort drop-down. */
    var activeSelect: string
    var isLoading: bool

    /** What every handler keeps: each shown item is one of the fetched
        items (no more often than fetched), and the view is empty only when
        the full list is. */
    ghost predicate Valid()
      reads this
    {
      && multiset(nfts) <= multiset(nftsCopy)
      && (nftsCopy != [] ==> nfts != [])
    }

    /** The home page's initial state: empty lists, loading. */
    constructor Home()
      ensures Valid()
      ensures nfts == [] && nftsCopy == [] && activeSelect == "Recently Added" && isLoading
    {
      nfts, nftsCopy := [], [];
      activeSelect := "Recently Added";
      isLoading := true;
    }

    /** The "my NFTs" page's initial state: empty lists, not loading. */
    constructor MyNfts()
      ensures Valid()
      ensures nfts == [] && nftsCopy == [] && activeSelect == "Recently Added" && !isLoading
    {
      nfts, nftsCopy := [], [];
      activeSelect := "Recently Added";
      isLoading := false;
    }

    /** The fetch effect resolving with `items`. */
    method Load(items: seq<Nft>)
      modifies this
      ensures Valid()
      ensures nfts == items && nftsCopy == items && !isLoading
      ensures activeSelect == old(activeSelect)
    {
      nfts := items;
      nftsCopy := items;
      isLoading := false;
    }

    /** The sort effect: sorts a copy of the view by the selected order and
        shows it; an unknown label leaves the view as it is. */
    method SortEffect()
      requires Valid()
      modifies this
      ensures Valid()
      ensures nftsCopy == old(nftsCopy) && activeSelect == old(activeSelect) && isLoading == old(isLoading)
      ensures multiset(nfts) == multiset(old(nfts))
      ensures ModeOf(activeSelect).Some? ==> SortedBy(ModeOf(activeSelect).value, nfts)
      ensures ModeOf(activeSelect).None? ==> nfts == old(nfts)
    {
      var view := nfts;
      match ModeOf(activeSelect)
      case Some(o) =>
        var sorted := new Nft[|view|](i requires 0 <= i < |view| => view[i]);
        assert sorted[..] == view;
        SortInPlace(sorted, o);
        nfts := sorted[..];
      case None =>
        nfts := view;
    }

    /** Picking a label in the drop-down. The sort effect depends on
        `activeSelect`, so it runs only when the label changes. */
    method SelectSort(select: string)
      requires Valid()
      modifies this
      ensures Valid()
      ensures activeSelect == select
      ensures nftsCopy == old(nftsCopy) && isLoading == old(isLoading)
      ensures multiset(nfts) == multiset(old(nfts))
      ensures select == old(activeSelect) ==> nfts == old(nfts)
      ensures select != old(activeSelect) && ModeOf(select).Some? ==> SortedBy(ModeOf(select).value, nfts)
      ensures ModeOf(select).None? ==> nfts == old(nfts)
    {
      if select != activeSelect {
        activeSelect := select;
        SortEffect();
      }
    }

    /** `onHandleSearch`: keep the shown items whose name contains the
        query, ignoring case; when none does, show the full list again. */
    method Search(value: string)
      requires Valid()
      modifies this
      ensures Valid()
      ensures nftsCopy == old(nftsCopy) && activeSelect == old(activeSelect) && isLoading == old(isLoading)
      ensures Matching(old(nfts), value) != [] ==> nfts == Matching(old(nfts), value)
      ensures Matching(old(nfts), value) == [] ==> nfts == old(nftsCopy)
    {
      var filtered := Matching(nfts, value);
      MatchingSubMultiset(nfts, value);
      if |filtered| > 0 {
        nfts := filtered;
      } else {
        nfts := nftsCopy;
      }
    }

    /** `onClearSearch`: show the full list again, but only when both lists
        are non-empty. */
    method ClearSearch()
      requires Valid()
      modifies this
      ensures Valid()
      ensures nftsCopy == old(nftsCopy) && activeSelect == old(activeSelect) && isLoading == old(isLoading)
      ensures nfts == if old(nfts) != [] && old(nftsCopy) != [] then old(nftsCopy) else old(nfts)
    {
      if |nfts| > 0 && |nftsCopy| > 0 {
        nfts := nftsCopy;
      }
    }

    /** The "Top Sellers" row: `getCreators(nftsCopy)` numbered from 1 in
        its own order. It is built from the full list, so sorting and
        searching do not change it, and it is not re-sorted by sum. */
    method TopSellers() returns (cards: seq<CreatorCard>)
      ensures |cards| == |Sellers(nftsCopy)|
      ensures forall i :: 0 <= i < |cards| ==> cards[i].rank == i + 1 && cards[i].seller == Sellers(nftsCopy)[i]
      ensures forall i :: 0 <= i < |cards| ==> cards[i].sum == Total(Records(nftsCopy, cards[i].seller))
    {
      var creators := GetCreators(nftsCopy);
      cards := seq(|creators|, i requires 0 <= i < |creators| => CreatorCard(i + 1, creators[i].0, creators[i].1));
      forall j | 0 <= j < |cards| ensures cards[j].sum == Total(Records(nftsCopy, cards[j].seller)) {
        CreatorSum(nftsCopy, j);
      }
    }

    /** The home page's "No NFTs for sale" test. Under `Valid`, it holds
        only when the full list is empty too. */
    predicate ShowsNoNftsForSale()
      reads this
      ensures Valid() && ShowsNoNftsForSale() ==> nftsCopy == []
    {
      !isLoading && |nfts| == 0
    }

    /** The "No NFTs owned." test of the my-NFTs page. Under `Valid` it is
        the same test as the home page's: the check of `nftsCopy` never
        changes the answer. */
    predicate ShowsNoNftsOwned()
      reads this
      ensures ShowsNoNftsOwned() ==> nfts == [] && nftsCopy == [] && !isLoading
      ensures Valid() ==> (ShowsNoNftsOwned() <==> ShowsNoNftsForSale())
    {
      !isLoading && |nfts| == 0 && |nftsCopy| == 0
    }
  }
}
