/** The name filter of the listing pages:
    `name.toLowerCase().includes(value.toLowerCase())`. */
module NameSearch {
  import opened Nfts
  import opened Seqs

  /** Lower-cases one ASCII letter; every other character is kept. */
  function LowerChar(c: char): char
  {
    if 'A' <= c <= 'Z' then (c as int + 32) as char else c
  }

  /** `toLowerCase` on ASCII: the same string with no upper-case letter left. */
  function ToLower(s: string): (r: string)
    ensures |r| == |s|
    ensures forall i :: 0 <= i < |r| ==> !('A' <= r[i] <= 'Z')
    ensures forall i :: 0 <= i < |r| ==> LowerChar(r[i]) == LowerChar(s[i])
  {
    if s == [] then [] else [LowerChar(s[0])] + ToLower(s[1..])
  }

  /** `needle` occurs in `hay` starting at position `i`. */
  predicate OccursAt(hay: string, needle: string, i: int)
  {
    0 <= i && i + |needle| <= |hay| && hay[i..i + |needle|] == needle
  }

  /** `hay.includes(needle)`, scanning start positions from the left. */
  function Contains(hay: string, needle: string): bool
    decreases |hay|
  {
    if |needle| > |hay| then false
    else if hay[..|needle|] == needle then true
    else Contains(hay[1..], needle)
  }

  /** `Contains` holds exactly when the needle occurs at some position. */
  lemma {:induction false} ContainsIff(hay: string, needle: string)
    ensures Contains(hay, needle) <==> exists i :: OccursAt(hay, needle, i)
    decreases |hay|
  {
    if |needle| > |hay| {
    } else if hay[..|needle|] == needle {
      assert OccursAt(hay, needle, 0);
    } else {
      ContainsIff(hay[1..], needle);
      if Contains(hay[1..], needle) {
        var i :| OccursAt(hay[1..], needle, i);
        assert hay[1..][i..i + |needle|] == hay[i + 1..i + 1 + |needle|];
        assert OccursAt(hay, needle, i + 1);
      } else {
        forall i | OccursAt(hay, needle, i) ensures false {
          if i > 0 {
            assert hay[1..][i - 1..i - 1 + |needle|] == hay[i..i + |needle|];
            assert OccursAt(hay[1..], needle, i - 1);
          }
        }
      }
    }
  }

  /** The filter callback for a query. */
  function NameMatches(query: string): Nft -> bool
  {
    (nft: Nft) => Contains(ToLower(nft.name), ToLower(query))
  }

  /** `nfts.filter(({ name }) => ...)`: the items whose lower-cased name
      contains the lower-cased query. */
  function Matching(nfts: seq<Nft>, query: string): (r: seq<Nft>)
    ensures forall n :: n in r <==> n in nfts && Contains(ToLower(n.name), ToLower(query))
    ensures r == [] <==> forall n :: n in nfts ==> !Contains(ToLower(n.name), ToLower(query))
    ensures |r| <= |nfts|
  {
    FilterMembers(NameMatches(query), nfts);
    Filter(NameMatches(query), nfts)
  }

  /** The matches never repeat an item more often than the view holds it. */
  lemma MatchingSubMultiset(nfts: seq<Nft>, query: string)
    ensures multiset(Matching(nfts, query)) <= multiset(nfts)
  {
    FilterSubMultiset(NameMatches(query), nfts);
  }

  /** The matches are taken at increasing positions, exactly at the
      positions whose name matches. */
  lemma MatchingKeepsOrder(nfts: seq<Nft>, query: string) returns (idx: seq<nat>)
    ensures Embeds(Matching(nfts, query), nfts, idx)
    ensures forall i :: 0 <= i < |nfts| ==> (i in idx <==> Contains(ToLower(nfts[i].name), ToLower(query)))
  {
    idx := FilterKeepsOrder(NameMatches(query), nfts);
    forall i | 0 <= i < |nfts| && i in idx ensures Contains(ToLower(nfts[i].name), ToLower(query)) {
      var j :| 0 <= j < |idx| && idx[j] == i;
      assert NameMatches(query)(nfts[idx[j]]);
    }
  }
}
