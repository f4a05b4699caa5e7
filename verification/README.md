# CryptoKet market pages: a Dafny model

CryptoKet is a web marketplace for NFTs. This project models the small
amount of logic in its pages:

- `getCreators` (`utils/getTopCreators.js`) groups the market items by
  seller. It keeps each seller in the order its first item appears and
  returns one `{seller, sum}` per seller, where `sum` totals that seller's
  prices. The model is `TopCreators.GetCreators`, a loop over a fresh
  accumulator map plus a separate key-order sequence (the object's insertion
  order). It is proved equal to the specification `TopCreators.Creators`,
  and lemmas state partition, exactly-once, first-seen order, per-seller
  sums and conservation of the total.
- The listing pages (`pages/index.js`, `pages/my-nfts.js`) hold the same
  state, modelled as the class `Listing.ListingState` with the fields
  `nfts` (the view), `nftsCopy` (the full list), `activeSelect` and
  `isLoading`. It has the same load, sort, search and clear handlers. The two
  constructors `Home` and `MyNfts` give each page's initial state. Each
  handler keeps the invariant `Valid`: every shown item is one of the
  fetched items, and the view is empty only when the full list is.
  A consequence is that the two pages' empty-state tests agree. The sort
  copies the view into an array and sorts it in place (`Sorting.SortInPlace`).
  The search filter is `NameSearch.Matching`. The "Top Sellers" row is
  `getCreators(nftsCopy)` numbered from 1, with no re-sorting by sum.
- The navigation bar (`components/Navbar.jsx`) has `generateLink` (menu
  index to path), `checkActive` (path to active label), the click handlers
  and the theme switch. The class `Navbar.NavbarState` holds `active`,
  `isOpen` and `theme`.

Prices and token ids are integers (for example wei). The order of the
accumulator's keys is first-seen order; this holds for seller addresses,
which are not integer-like strings.

The handlers in `pages/my-nfts.js` (lines 16-42 and 52-70) are the same
as those in `pages/index.js` (lines 23-49 and 51-69), apart from the fetch
the load effect calls (`fetchMyNFTsOrListedNFTs("fetchMyNFTs")` at
pages/my-nfts.js:17, `fetchNFTs()` at pages/index.js:24). The table cites
one page per member.

`getCreators` raises no error on a non-numeric price: `Number` turns it
into NaN (utils/getTopCreators.js:11). The home page renders one card per
seller, with no cut to a top few (pages/index.js:138-146).

Two details of the code are modelled as written:
- The sort effect depends on `activeSelect`, so choosing the label that is
  already selected does not sort again (`SelectSort`).
- A search filters the current view, not the full list. After a narrower
  search, a broader one only finds items that are still shown
  (`Search`).

## Model

| member | source | states |
|---|---|---|
| `TopCreators.GetCreators` | utils/getTopCreators.js:1-16 | Returns `Creators(nfts)`: one (seller, sum) per distinct seller, built from a fresh accumulator, in key-insertion order. Empty input gives empty output. |
| `TopCreators.GroupedPush` | utils/getTopCreators.js:3 | One step of the `reduce` (push the record onto its seller's array, creating the array if absent) keeps two facts: the keys are the sellers seen so far in first-seen order, and each key maps to exactly that seller's records. |
| `TopCreators.Sellers` | utils/getTopCreators.js:2-6 | The accumulator never has more keys than there are records. |
| `TopCreators.SellersSpec` | utils/getTopCreators.js:2-6 | The accumulator's keys are pairwise distinct and are exactly the sellers occurring in the input. |
| `TopCreators.CreatorsSellersExactlyOnce` | utils/getTopCreators.js:2-9 | A seller has an output entry iff it occurs in the input, and then exactly one. The output is no longer than the input. |
| `TopCreators.CreatorSum` | utils/getTopCreators.js:10-12 | Each entry's sum is the total price of all input records whose seller equals that entry's seller. |
| `TopCreators.GroupKeepsOrder` | utils/getTopCreators.js:3 | A seller's group holds exactly the positions of that seller's records, in increasing input order. |
| `TopCreators.SellersFirstSeenOrder` | utils/getTopCreators.js:2-6 | For keys i < j, every record of key j is preceded by a record of key i. |
| `TopCreators.CreatorsFirstSeenOrder` | utils/getTopCreators.js:8-15 | The output entries are in first-seen order of their sellers, with no re-sorting. |
| `TopCreators.CreatorsConserveTotal` | utils/getTopCreators.js:2-15 | The output sums add up to the total of all input prices. |
| `TopCreators.EntriesSnocAt` | utils/getTopCreators.js:10-12 | Adding one record to the input raises its seller's sum by its price and leaves every other seller's sum unchanged. |
| `TopCreators.EntriesSnocSum` | utils/getTopCreators.js:10-12 | Adding one record raises the sum of all sums by its price when its seller is a key, and leaves it unchanged otherwise. |
| `Sorting.ModeOf` | pages/index.js:34-47 | Each of the three drop-down labels selects its own order. Any other string selects none (the `default` branch). |
| `Sorting.Compare` | pages/index.js:35-42 | Each comparator equals the difference of the order's sort keys. |
| `Sorting.SortedByMeaning` | pages/my-nfts.js:28-36 | Sorted by "Recently Added" means tokenId is non-increasing. Sorted by "Price (Low to High)" means price is non-decreasing, and "Price (High to Low)" means non-increasing. |
| `Sorting.SortInPlace` | pages/index.js:36-42 | After the in-place sort, the array is sorted by the comparator and is a permutation of the original. |
| `Sorting.Insert` | pages/index.js:36 | One insertion step extends the sorted prefix by one element. It permutes the array and leaves the unsorted suffix alone. |
| `NameSearch.ToLower` | pages/index.js:53 | The result has the same length, contains no upper-case ASCII letter, and equals the input up to case. |
| `NameSearch.ContainsIff` | pages/index.js:53 | `includes` holds exactly when the query occurs at some position of the name. |
| `NameSearch.Matching` | pages/index.js:52-54 | Keeps exactly the items whose lower-cased name contains the lower-cased query. The result is empty iff no name matches. |
| `NameSearch.MatchingKeepsOrder` | pages/my-nfts.js:53-55 | The matches are taken at exactly the matching positions, in input order. |
| `NameSearch.MatchingSubMultiset` | pages/my-nfts.js:53-55 | The matches form a sub-multiset of the view. |
| `Seqs.FilterMembers` | pages/my-nfts.js:53 | `filter` keeps exactly the elements that satisfy the callback. It is empty iff none does. |
| `Seqs.FilterKeepsOrder` | pages/index.js:52 | `filter` takes exactly the positions whose element passes, in increasing order. |
| `Seqs.FilterSubMultiset` | pages/index.js:52 | `filter` never adds elements and never duplicates them. |
| `Listing.ListingState.Home` | pages/index.js:17-21 | The home page starts with empty lists, "Recently Added" selected and loading on. |
| `Listing.ListingState.MyNfts` | pages/my-nfts.js:10-14 | The my-NFTs page starts with empty lists, "Recently Added" selected and loading off. |
| `Listing.ListingState.Load` | pages/index.js:23-29 | After the fetch resolves, `nfts` and `nftsCopy` both equal the fetched items and loading is off. |
| `Listing.ListingState.SortEffect` | pages/index.js:31-49 | The view becomes a permutation of itself, sorted by the selected order. An unknown label leaves it unchanged. `nftsCopy` never changes. |
| `Listing.ListingState.SelectSort` | pages/my-nfts.js:24-42 | Choosing a new label sorts the view by it. Re-choosing the current label, or choosing an unknown one, leaves the view unchanged. `nftsCopy` is untouched. |
| `Listing.ListingState.Search` | pages/index.js:51-62 | If some shown name matches, the view becomes exactly the matching shown items, in order. Otherwise the view becomes `nftsCopy`. |
| `Listing.ListingState.ClearSearch` | pages/my-nfts.js:65-70 | The view becomes `nftsCopy` only when both lists are non-empty. Otherwise nothing changes. |
| `Listing.ListingState.TopSellers` | pages/index.js:139-145 | Card i has rank i+1, the i-th first-seen seller of `nftsCopy`, and that seller's total. It is computed from the full list, not from the view. |
| `Listing.ListingState.ShowsNoNftsForSale` | pages/index.js:118 | Under the invariant, "No NFTs for sale" shows only when the full list is empty too. |
| `Listing.ListingState.ShowsNoNftsOwned` | pages/my-nfts.js:95 | Shows only when not loading and both lists are empty. Under the invariant it agrees with the home page's test. |
| `Navbar.GenerateLink` | components/Navbar.jsx:12-23 | Every index maps to one of the three menu paths. An index with no menu item maps to "/". |
| `Navbar.ActiveFor` | components/Navbar.jsx:73-92 | The label is a menu item or "". A non-empty label is the item whose link is this path. |
| `Navbar.LinkRoundTrip` | components/Navbar.jsx:31-44 | For indexes 0..2, the active label for `generateLink(index)` is the menu item at that index. |
| `Navbar.NextTheme` | components/Navbar.jsx:155 | The next theme is "light" or "dark", and it differs from the current one when that is a theme. |
| `Navbar.ToggleTwice` | components/Navbar.jsx:155 | Toggling twice from "light" or "dark" gives back the original. |
| `Navbar.NavbarState.constructor` | components/Navbar.jsx:97-106 | After mounting, the theme is "dark", the menu is closed and the active label is the one for the current path. |
| `Navbar.NavbarState.CheckActive` | components/Navbar.jsx:73-92 | `active` becomes the path's label. `setActive` is called unless that menu label is already active. Nothing else changes. |
| `Navbar.NavbarState.ClickMenuItem` | components/Navbar.jsx:34-37 | `active` becomes the clicked item. The mobile list also closes the menu. |
| `Navbar.NavbarState.ClickLogo` | components/Navbar.jsx:114-116 | `active` becomes "Explore NFTs". |
| `Navbar.NavbarState.ClickCompactLogo` | components/Navbar.jsx:133-136 | `active` becomes "Explore NFTs" and the menu closes. |
| `Navbar.NavbarState.ClickCreate` | components/Navbar.jsx:58-62 | `active` becomes "" and the menu closes. |
| `Navbar.NavbarState.SetMenuOpen` | components/Navbar.jsx:180-200 | The menu and close icons set `isOpen` and nothing else. |
| `Navbar.NavbarState.ToggleTheme` | components/Navbar.jsx:155 | The theme flips between "light" and "dark". `active` and `isOpen` stay the same. |

## Left out

- Rendering is not modelled: JSX, CSS classes, images, `Button.jsx`, `_app.js`, the loader and the highlighting of the active menu item.
- Scroll handling (`handleScroll`, `isScrollable`, `pages/index.js:71-101`) is left out because it depends on DOM widths and window resize events.
- The search bar's debounce (`components/SearchBar.jsx`) is timer behaviour. A non-empty query is modelled as a call of `Search`, and an empty one as `ClearSearch`.
- The fetches (`fetchNFTs`, `fetchMyNFTsOrListedNFTs`), the wallet connection, `shortenAddress`, `router.push`, `pages/resell-nft.js` and `scripts/deploy.js` are foreign calls. The fetched items are the parameter of `Load`.
- The price model is integers, not JavaScript numbers: there is no floating point, and no NaN from `Number` on a non-numeric price string.
- `Object.entries` lists integer-like keys first, in numeric order. The model assumes seller keys are not integer-like.
- TopCreators.GetCreators: the accumulator `{}` inherits the members of `Object.prototype`, so a seller named `constructor`, `toString`, `valueOf`, `hasOwnProperty` or `__proto__` makes `acc[nft.seller] || []` return a non-array and `.push` throws. The model assumes seller keys are not such names, and promises a result for every input.
- `toLowerCase` is modelled for ASCII letters only; Unicode case mapping is not.
- Sorting.SortInPlace: states sorted and permutation, not that items with equal keys keep their relative order (`Array.prototype.sort` is stable).
- Listing.ListingState.SortEffect: states a sorted permutation of the view, not that items with equal keys keep their relative order.
- Listing.ListingState.SelectSort: when it sorts, it states a sorted permutation of the view, not that items with equal keys keep their relative order.
- Navbar.NavbarState.ClickMenuItem: the desktop list is rendered without `setIsOpen` (`components/Navbar.jsx:168`), so its handler throws after `setActive`. The model keeps the state change, `isOpen` unchanged, and not the exception.
- The sort effect also runs once at mount, on the empty initial list. That run changes nothing, so the constructors do not repeat it.
