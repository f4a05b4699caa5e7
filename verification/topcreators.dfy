/** `getCreators`: group the market items by seller, in the order each
    seller is first seen, and total each seller's prices. */
module TopCreators {
  import opened Nfts
  import opened Seqs

  /** One output entry: a seller and the sum of that seller's prices. */
  type Creator = (string, int)

  /** `nfts` holds at least one record listed by `seller`. */
  ghost predicate Sells(nfts: seq<Nft>, seller: string)
  {
    exists i :: 0 <= i < |nfts| && nfts[i].seller == seller
  }

  /** The distinct sellers of `nfts`, each added when its first record is
      met: the key order of the accumulator object. */
  function Sellers(nfts: seq<Nft>): (r: seq<string>)
    ensures |r| <= |nfts|
    decreases |nfts|
  {
    if nfts == [] then []
    else
      var init, last := nfts[..|nfts| - 1], nfts[|nfts| - 1];
      var prev := Sellers(init);
      if last.seller in prev then prev else prev + [last.seller]
  }

  /** The keys are pairwise distinct. */
  ghost predicate Distinct(keys: seq<string>)
  {
    forall i, j :: 0 <= i < j < |keys| ==> keys[i] != keys[j]
  }

  /** The sellers of a list with one more record. */
  lemma SellsSnoc(nfts: seq<Nft>, nft: Nft, seller: string)
    ensures Sells(nfts + [nft], seller) <==> Sells(nfts, seller) || nft.seller == seller
  {
    var all := nfts + [nft];
    if Sells(all, seller) && nft.seller != seller {
      var i :| 0 <= i < |all| && all[i].seller == seller;
      assert nfts[i] == all[i];
    }
    if Sells(nfts, seller) {
      var i :| 0 <= i < |nfts| && nfts[i].seller == seller;
      assert all[i] == nfts[i];
    }
    if nft.seller == seller {
      assert all[|nfts|] == nft;
    }
  }

  /** The keys are exactly the sellers occurring in the input, each once. */
  lemma {:induction false} SellersSpec(nfts: seq<Nft>)
    ensures forall k :: k in Sellers(nfts) <==> Sells(nfts, k)
    ensures Distinct(Sellers(nfts))
    decreases |nfts|
  {
    if nfts != [] {
      var init, last := nfts[..|nfts| - 1], nfts[|nfts| - 1];
      assert nfts == init + [last];
      SellersSpec(init);
      forall k ensures k in Sellers(nfts) <==> Sells(nfts, k) {
        SellsSnoc(init, last, k);
      }
    }
  }

  /** The seller of a record, as a filter predicate. */
  function SoldBy(seller: string): Nft -> bool
  {
    (nft: Nft) => nft.seller == seller
  }

  /** The records of one seller, in input order: the array that the
      accumulator collects under that seller's key. */
  function Records(nfts: seq<Nft>, seller: string): seq<Nft>
  {
    Filter(SoldBy(seller), nfts)
  }

  /** The sum of the prices, added left to right from 0. */
  function Total(nfts: seq<Nft>): int
    decreases |nfts|
  {
    if nfts == [] then 0 else Total(nfts[..|nfts| - 1]) + nfts[|nfts| - 1].price
  }

  /** One entry per key of `sellers`, in that order, each with the seller's total. */
  function Entries(sellers: seq<string>, nfts: seq<Nft>): (r: seq<Creator>)
    ensures |r| == |sellers|
    ensures forall i :: 0 <= i < |r| ==> r[i].0 == sellers[i]
  {
    if sellers == [] then []
    else [(sellers[0], Total(Records(nfts, sellers[0])))] + Entries(sellers[1..], nfts)
  }

  /** What `getCreators(nfts)` returns. */
  function Creators(nfts: seq<Nft>): seq<Creator>
  {
    Entries(Sellers(nfts), nfts)
  }

  /** The sum of the `sum` fields of an output. */
  function SumOfSums(creators: seq<Creator>): int
  {
    if creators == [] then 0 else creators[0].1 + SumOfSums(creators[1..])
  }

  /** Each entry of `Entries` carries the total of its own seller. */
  lemma {:induction false} EntriesAt(sellers: seq<string>, nfts: seq<Nft>, i: nat)
    requires i < |sellers|
    ensures Entries(sellers, nfts)[i] == (sellers[i], Total(Records(nfts, sellers[i])))
    decreases |sellers|
  {
    if i > 0 {
      EntriesAt(sellers[1..], nfts, i - 1);
    }
  }

  /** Adding a record adds its seller at the end, unless already present. */
  lemma SellersSnoc(nfts: seq<Nft>, nft: Nft)
    ensures Sellers(nfts + [nft]) == if nft.seller in Sellers(nfts) then Sellers(nfts) else Sellers(nfts) + [nft.seller]
  {
    assert (nfts + [nft])[..|nfts|] == nfts;
  }

  /** Adding a record extends its own seller's records and no other. */
  lemma RecordsSnoc(nfts: seq<Nft>, nft: Nft)
    ensures forall k :: Records(nfts + [nft], k) == Records(nfts, k) + (if nft.seller == k then [nft] else [])
  {
    forall k ensures Records(nfts + [nft], k) == Records(nfts, k) + (if nft.seller == k then [nft] else []) {
      FilterSnoc(SoldBy(k), nfts, nft);
    }
  }

  /** A seller absent from the input has no records. */
  lemma NoRecordsOfNewSeller(nfts: seq<Nft>, seller: string)
    requires !Sells(nfts, seller)
    ensures Records(nfts, seller) == []
  {
    FilterMembers(SoldBy(seller), nfts);
    forall x | x in nfts ensures x.seller != seller {
      var i :| 0 <= i < |nfts| && nfts[i] == x;
    }
  }

  /** The accumulator after the records `pre`: `keys` is its key order and
      `acc` maps each key to that seller's records. */
  ghost predicate Grouped(pre: seq<Nft>, keys: seq<string>, acc: map<string, seq<Nft>>)
  {
    && keys == Sellers(pre)
    && (forall k :: k in acc <==> k in keys)
    && (forall k :: k in acc ==> acc[k] == Records(pre, k))
  }

  /** One step of the `reduce`: `(acc[seller] = acc[seller] || []).push(nft)`. */
  lemma GroupedPush(pre: seq<Nft>, keys: seq<string>, acc: map<string, seq<Nft>>, nft: Nft)
    requires Grouped(pre, keys, acc)
    ensures Grouped(pre + [nft],
                    if nft.seller in acc then keys else keys + [nft.seller],
                    acc[nft.seller := (if nft.seller in acc then acc[nft.seller] else []) + [nft]])
  {
    SellersSnoc(pre, nft);
    RecordsSnoc(pre, nft);
    if nft.seller !in acc {
      SellersSpec(pre);
      NoRecordsOfNewSeller(pre, nft.seller);
    }
  }

  /** The model of `getCreators` itself: a `reduce` that pushes every
      record onto its seller's array in a fresh accumulator, whose keys keep
      insertion order, and then one `{seller, sum}` per key. */
  method GetCreators(nfts: seq<Nft>) returns (creators: seq<Creator>)
    ensures creators == Creators(nfts)
    ensures nfts == [] ==> creators == []
  {
    var keys: seq<string> := [];
    var acc: map<string, seq<Nft>> := map[];
    var i := 0;
    while i < |nfts|
      invariant 0 <= i <= |nfts|
      invariant Grouped(nfts[..i], keys, acc)
    {
      var nft := nfts[i];
      GroupedPush(nfts[..i], keys, acc, nft);
      assert nfts[..i + 1] == nfts[..i] + [nft];
      var group := if nft.seller in acc then acc[nft.seller] else [];
      if nft.seller !in acc {
        keys := keys + [nft.seller];
      }
      acc := acc[nft.seller := group + [nft]];
      i := i + 1;
    }
    assert nfts[..i] == nfts;
    creators := seq(|keys|, j requires 0 <= j < |keys| => (keys[j], Total(acc[keys[j]])));
    GroupedEntries(nfts, keys, acc, creators);
  }

  /** `Object.entries(acc).map(...)`: once the whole input is grouped, the
      per-key totals in key order are exactly `Creators`. */
  lemma GroupedEntries(nfts: seq<Nft>, keys: seq<string>, acc: map<string, seq<Nft>>, creators: seq<Creator>)
    requires Grouped(nfts, keys, acc)
    requires |creators| == |keys|
    requires forall j :: 0 <= j < |keys| ==> creators[j] == (keys[j], Total(acc[keys[j]]))
    ensures creators == Creators(nfts)
  {
    forall j | 0 <= j < |keys| ensures creators[j] == Creators(nfts)[j] {
      EntriesAt(keys, nfts, j);
    }
  }

  /** Every seller of the input has exactly one entry, no other seller has
      one, and there are never more entries than records. */
  lemma CreatorsSellersExactlyOnce(nfts: seq<Nft>, seller: string)
    ensures |Creators(nfts)| <= |nfts|
    ensures Sells(nfts, seller) <==> exists i :: 0 <= i < |Creators(nfts)| && Creators(nfts)[i].0 == seller
    ensures forall i, j :: 0 <= i < |Creators(nfts)| && 0 <= j < |Creators(nfts)| && Creators(nfts)[i].0 == seller && Creators(nfts)[j].0 == seller ==> i == j
  {
    var ks := Sellers(nfts);
    SellersSpec(nfts);
    if Sells(nfts, seller) {
      var i :| 0 <= i < |ks| && ks[i] == seller;
      assert Creators(nfts)[i].0 == seller;
    }
  }

  /** Each entry's `sum` is the total of the prices of all the input records
      whose seller is that entry's seller (exact string equality). */
  lemma {:induction false} CreatorSum(nfts: seq<Nft>, i: nat)
    requires i < |Creators(nfts)|
    ensures Creators(nfts)[i].1 == Total(Records(nfts, Creators(nfts)[i].0))
  {
    EntriesAt(Sellers(nfts), nfts, i);
  }

  /** A seller's records are exactly the input records with that seller,
      taken at increasing positions, so they keep the input order. */
  lemma GroupKeepsOrder(nfts: seq<Nft>, seller: string) returns (idx: seq<nat>)
    ensures Embeds(Records(nfts, seller), nfts, idx)
    ensures forall i :: 0 <= i < |nfts| ==> (i in idx <==> nfts[i].seller == seller)
  {
    idx := FilterKeepsOrder(SoldBy(seller), nfts);
    forall i | 0 <= i < |nfts| && i in idx ensures nfts[i].seller == seller {
      var j :| 0 <= j < |idx| && idx[j] == i;
      assert SoldBy(seller)(nfts[idx[j]]);
    }
  }

  /** Output order is first-seen order: for two entries, every record of
      the later seller is preceded by a record of the earlier one. */
  lemma {:induction false} SellersFirstSeenOrder(nfts: seq<Nft>, i: nat, j: nat, q: nat)
    requires i < j < |Sellers(nfts)| && q < |nfts| && nfts[q].seller == Sellers(nfts)[j]
    ensures exists p :: 0 <= p < q && nfts[p].seller == Sellers(nfts)[i]
    decreases |nfts|
  {
    var init, last := nfts[..|nfts| - 1], nfts[|nfts| - 1];
    assert nfts == init + [last];
    SellersSnoc(init, last);
    var prev := Sellers(init);
    SellersSpec(init);
    if j < |prev| {
      if q < |init| {
        assert init[q] == nfts[q];
        SellersFirstSeenOrder(init, i, j, q);
        var p :| 0 <= p < q && init[p].seller == prev[i];
        assert nfts[p] == init[p];
      } else {
        assert Sells(init, prev[i]);
        var p :| 0 <= p < |init| && init[p].seller == prev[i];
        assert nfts[p] == init[p];
      }
    } else {
      assert Sellers(nfts)[j] == last.seller && last.seller !in prev;
      if q < |init| {
        assert false;
      }
      assert Sells(init, prev[i]);
      var p :| 0 <= p < |init| && init[p].seller == prev[i];
      assert nfts[p] == init[p];
    }
  }

  /** The first-seen order, stated on the output of `getCreators`. */
  lemma CreatorsFirstSeenOrder(nfts: seq<Nft>, i: nat, j: nat, q: nat)
    requires i < j < |Creators(nfts)| && q < |nfts| && nfts[q].seller == Creators(nfts)[j].0
    ensures exists p :: 0 <= p < q && nfts[p].seller == Creators(nfts)[i].0
  {
    SellersFirstSeenOrder(nfts, i, j, q);
  }

  /** The distinct sellers `ks` all see one more record: the seller of `nft`
      (if listed) gains its price and the others are unchanged. */
  lemma {:induction false} EntriesSnocSum(ks: seq<string>, nfts: seq<Nft>, nft: Nft)
    requires Distinct(ks)
    ensures SumOfSums(Entries(ks, nfts + [nft])) == SumOfSums(Entries(ks, nfts)) + (if nft.seller in ks then nft.price else 0)
    decreases |ks|
  {
    if ks != [] {
      RecordsSnoc(nfts, nft);
      var g := Records(nfts, ks[0]);
      TotalSnoc(g, nft);
      assert g + [] == g;
      assert Total(Records(nfts + [nft], ks[0])) == Total(g) + (if nft.seller == ks[0] then nft.price else 0);
      EntriesSnocSum(ks[1..], nfts, nft);
      var e, e' := Entries(ks, nfts), Entries(ks, nfts + [nft]);
      assert SumOfSums(e) == e[0].1 + SumOfSums(Entries(ks[1..], nfts));
      assert SumOfSums(e') == e'[0].1 + SumOfSums(Entries(ks[1..], nfts + [nft]));
      assert nft.seller in ks <==> nft.seller == ks[0] || nft.seller in ks[1..];
      if nft.seller == ks[0] {
        assert nft.seller !in ks[1..];
      }
    }
  }

  /** Adding a record raises its seller's entry by its price and leaves
      every other entry's sum unchanged. */
  lemma EntriesSnocAt(ks: seq<string>, nfts: seq<Nft>, nft: Nft, i: nat)
    requires i < |ks|
    ensures Entries(ks, nfts + [nft])[i].0 == ks[i]
    ensures Entries(ks, nfts + [nft])[i].1 == Entries(ks, nfts)[i].1 + (if ks[i] == nft.seller then nft.price else 0)
  {
    EntriesAt(ks, nfts, i);
    EntriesAt(ks, nfts + [nft], i);
    RecordsSnoc(nfts, nft);
    TotalSnoc(Records(nfts, ks[i]), nft);
    assert Records(nfts, ks[i]) + [] == Records(nfts, ks[i]);
  }

  /** Appending one seller appends that seller's total. */
  lemma {:induction false} EntriesSnocKey(ks: seq<string>, k: string, nfts: seq<Nft>)
    ensures SumOfSums(Entries(ks + [k], nfts)) == SumOfSums(Entries(ks, nfts)) + Total(Records(nfts, k))
    decreases |ks|
  {
    if ks == [] {
      assert Entries([k], nfts) == [(k, Total(Records(nfts, k)))] + Entries([], nfts);
    } else {
      assert (ks + [k])[1..] == ks[1..] + [k];
      EntriesSnocKey(ks[1..], k, nfts);
    }
  }

  /** Adding a record adds its price to the total. */
  lemma TotalSnoc(nfts: seq<Nft>, nft: Nft)
    ensures Total(nfts + [nft]) == Total(nfts) + nft.price
  {
    assert (nfts + [nft])[..|nfts|] == nfts;
  }

  /** A record of a new seller appends an entry whose sum is its price. */
  lemma NewSellerSum(init: seq<Nft>, last: Nft)
    requires last.seller !in Sellers(init)
    ensures SumOfSums(Entries(Sellers(init) + [last.seller], init + [last])) == SumOfSums(Entries(Sellers(init), init + [last])) + last.price
  {
    var nfts := init + [last];
    SellersSpec(init);
    EntriesSnocKey(Sellers(init), last.seller, nfts);
    NoRecordsOfNewSeller(init, last.seller);
    RecordsSnoc(init, last);
    assert Records(nfts, last.seller) == [last];
    TotalSnoc([], last);
    assert [] + [last] == [last];
  }

  /** Conservation: the `sum`s of the output add up to the sum of all input prices. */
  lemma {:induction false} CreatorsConserveTotal(nfts: seq<Nft>)
    ensures SumOfSums(Creators(nfts)) == Total(nfts)
    decreases |nfts|
  {
    if nfts != [] {
      var init, last := nfts[..|nfts| - 1], nfts[|nfts| - 1];
      assert nfts == init + [last];
      CreatorsConserveTotal(init);
      SellersSnoc(init, last);
      TotalSnoc(init, last);
      var prev := Sellers(init);
      SellersSpec(init);
      EntriesSnocSum(prev, init, last);
      if last.seller !in prev {
        NewSellerSum(init, last);
      }
    }
  }
}
