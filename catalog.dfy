/** The fixed catalog of sealed-bid auction variants and the lookup by id
    that falls back to the first entry (`selectAuction`). */
module Catalog {
  import opened Wrappers

  /** One step of a variant's canonical lifecycle. */
  datatype Phase = Phase(title: string, duration: string, description: string, checklist: seq<string>)

  /** A catalog entry: descriptive text, tags, phases and reference links. */
  datatype AuctionVariant = AuctionVariant(
    id: string,
    name: string,
    summary: string,
    codePath: string,
    testPath: string,
    blog: string,
    focus: seq<string>,
    phases: seq<Phase>,
    signature: string)

  /** The `auctions` array, in definition order. */
  const Auctions: seq<AuctionVariant> := [
    AuctionVariant(
      "overcollateralized",
      "Overcollateralized Vickrey auction",
      "Adds griefing resistance by requiring bidders to over-collateralize the value of their sealed bids before reveals.",
      "../src/sealed-bid/over-collateralized-auction/OverCollateralizedAuction.sol",
      "../test/OverCollateralizedAuction.t.sol",
      "https://a16zcrypto.com/how-auction-theory-informs-implementations/",
      ["Commit-and-reveal", "Penalty-resistant", "Single-item"],
      [ Phase("Commit", "minutes",
          "Bidder commits with a hash and deposits 1.5x the bid to discourage griefing.",
          ["hash(bid, salt) stays private", "collateral transferred into contract", "emits Commit event for ordering"]),
        Phase("Reveal", "minutes",
          "Bidders reveal salt + bid; invalid reveals lose collateral if undercollateralized.",
          ["verify commitment matches payload", "mark highest valid bid", "refund excess collateral"]),
        Phase("Finalize", "minutes",
          "Seller claims payment; losers reclaim collateral; winning price is second highest.",
          ["second-price settlement", "transfer NFT to winner", "cleanup for next sale"]) ],
      "Collateral-gated reveals with classic Vickrey payout."),
    AuctionVariant(
      "sneaky",
      "\"Sneaky\" Vickrey auction",
      "Intentionally leaks bid ordering through storage writes to show how implementation details reveal signal.",
      "../src/sealed-bid/sneaky-auction/SneakyAuction.sol",
      "../test/SneakyAuction.t.sol",
      "https://a16zcrypto.com/hidden-in-plain-sight-a-sneaky-solidity-implementation-of-a-sealed-bid-auction/",
      ["Side-channel study", "Commit-and-reveal", "Storage patterns"],
      [ Phase("Commit", "minutes",
          "Hash commitments are ordered into storage, leaking relative bid sizes over time.",
          ["ordered insertions", "commit salt retained", "storage touched per bid"]),
        Phase("Reveal", "minutes",
          "Reveals run in that ordering to surface timing attacks and gas griefing opportunities.",
          ["reconstruct bid", "update apparent leader", "log reveal ordering"]),
        Phase("Settle", "minutes",
          "Winner pays second price, but observers could infer ranking earlier via storage diffs.",
          ["second-price payout", "ordered refunds", "post-mortem analysis"]) ],
      "A cautionary tale for storage-based side channels."),
    AuctionVariant(
      "aztec",
      "Aztec Connect Vickrey auction",
      "Lets bidders submit commitments privately via Aztec, keeping the sealed-bid flow intact on settlement.",
      "../src/sealed-bid/aztec-connect-auction/AztecConnectAuction.sol",
      "../test/AztecConnectAuction.t.sol",
      "https://a16zcrypto.com/through-the-looking-glass-a-cross-chain-sealed-bid-auction-using-aztec-connect/",
      ["Cross-chain inbox", "Private commitments", "Bridge settlement"],
      [ Phase("Private commit", "bridge rollup",
          "Commitments originate in Aztec, arrive via inbox bridge with proofs.",
          ["validate Aztec proof", "checkpoint inbox hash", "record bidder alias"]),
        Phase("Reveal", "minutes",
          "Reveal flows mirror the base Vickrey design; invalid proofs revert.",
          ["payload checks", "hash binding", "bridge accounting"]),
        Phase("Settle", "minutes",
          "Winners pay on L1; optional reconcile with Aztec notes for refunds and payments.",
          ["L1 settlement", "bridge refund notes", "winner payout"]) ],
      "Privacy-preserving commitments with public settlement.")
  ]

  /** `id` names some catalog entry. */
  predicate IsCatalogId(id: string) {
    exists i :: 0 <= i < |Auctions| && Auctions[i].id == id
  }

  /** No two entries of `catalog` share an id. */
  predicate DistinctIds(catalog: seq<AuctionVariant>) {
    forall i, j :: 0 <= i < j < |catalog| ==> catalog[i].id != catalog[j].id
  }

  /** Where `catalog.find((a) => a.id === id)` finds its entry, with a miss as `None`: the
      index of the first entry carrying `id`. */
  function FindIndex(catalog: seq<AuctionVariant>, id: string): (r: Option<nat>)
    ensures r.Some? ==> r.value < |catalog| && catalog[r.value].id == id
    ensures r.Some? ==> forall j :: 0 <= j < r.value ==> catalog[j].id != id
    ensures r.None? <==> forall j :: 0 <= j < |catalog| ==> catalog[j].id != id
  {
    if catalog == [] then None
    else if catalog[0].id == id then Some(0)
    else match FindIndex(catalog[1..], id)
      case Some(k) => Some(k + 1)
      case None => None
  }

  /** `auctions.find((a) => a.id === id) || auctions[0]`: the entry with that
      id, or the first entry when no entry has it. */
  function SelectAuction(id: string): (r: AuctionVariant)
    ensures r in Auctions
    ensures r.id == id <==> IsCatalogId(id)
    ensures !IsCatalogId(id) ==> r == Auctions[0]
  {
    match FindIndex(Auctions, id)
    case Some(k) => Auctions[k]
    case None => Auctions[0]
  }

  /** The three catalog ids are pairwise different, so a lookup by id is unambiguous. */
  lemma CatalogIdsDistinct()
    ensures DistinctIds(Auctions)
    ensures |Auctions| == 3
    ensures Auctions[0].id == "overcollateralized" && Auctions[1].id == "sneaky" && Auctions[2].id == "aztec"
  {
  }

  /** In a catalog with distinct ids, looking an entry up by its own id finds
      that entry's position. */
  lemma FindIndexOfMember(catalog: seq<AuctionVariant>, k: nat)
    requires DistinctIds(catalog)
    requires k < |catalog|
    ensures FindIndex(catalog, catalog[k].id) == Some(k)
  {
  }

  /** Every catalog entry is what looking up its own id gives. */
  lemma SelectAuctionOfEntry(k: nat)
    requires k < |Auctions|
    ensures SelectAuction(Auctions[k].id) == Auctions[k]
  {
    CatalogIdsDistinct();
    FindIndexOfMember(Auctions, k);
  }

  /** Selecting the id of a selected entry selects the same entry again. */
  lemma SelectAuctionIdempotent(id: string)
    ensures SelectAuction(SelectAuction(id).id) == SelectAuction(id)
  {
    var r := SelectAuction(id);
    var k :| 0 <= k < |Auctions| && Auctions[k] == r;
    SelectAuctionOfEntry(k);
  }

  /** Every catalog test path starts with the relative-parent prefix "../". */
  lemma CatalogTestPathsRelative(k: nat)
    requires k < |Auctions|
    ensures |Auctions[k].testPath| >= 3 && Auctions[k].testPath[..3] == "../"
  {
    var p := Auctions[k].testPath;
    assert p[0] == '.' && p[1] == '.' && p[2] == '/';
    assert p[..3] == [p[0], p[1], p[2]];
  }
}
