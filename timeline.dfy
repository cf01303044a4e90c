/** `buildTimeline`: the four-stage runbook shown on every case card. */
module Timeline {
  import opened Text
  import Catalog
  import Cases

  /** One entry of a case's timeline; `title` is the entry's `label`. */
  datatype Stage = Stage(title: string, detail: string)

  /** The host's rendering of a number as text: `${x}` in a template literal,
      or `x.toFixed(2)`. The model leaves both formats abstract. */
  type Formatter = real -> string

  /** The stage labels, in the order every timeline has them. */
  const StageLabels: seq<string> := ["Commit", "Reveal", "Finalize", "Reference"]

  /** The collateral to lock per bid, `reserve * (collateral / 100)`, as an
      exact quantity before it is rounded for display. */
  function MinCollateral(c: Cases.Case): (m: real)
    ensures c.reserve >= 0.0 && c.collateral >= 0.0 ==> m >= 0.0
    ensures c.collateral == 100.0 ==> m == c.reserve
  {
    c.reserve * (c.collateral / 100.0)
  }

  /** The test path as displayed: its first "../" becomes "./". The result
      is the path itself or one character shorter. */
  function ReferencePath(testPath: string): (r: string)
    ensures r == testPath || |r| == |testPath| - 1
  {
    ReplaceFirst(testPath, "../", "./")
  }

  /** The timeline of case `c` of variant `auction`, with `show` for `${x}`
      and `fixed2` for `toFixed(2)`. Only the variant's test path is used:
      its declared phases play no part. */
  function BuildTimeline(show: Formatter, fixed2: Formatter, auction: Catalog.AuctionVariant, c: Cases.Case)
    : (r: seq<Stage>)
    ensures |r| == |StageLabels| == 4
    ensures forall i :: 0 <= i < |r| ==> r[i].title == StageLabels[i]
  {
    [ Stage("Commit", show(c.commitMinutes) + "m window · lock ≥ " + fixed2(MinCollateral(c)) + " ETH collateral per bid"),
      Stage("Reveal", show(c.revealMinutes) + "m window · validate salt + bid and rank for second price"),
      Stage("Finalize", show(c.finalizeMinutes) + "m buffer · settle with winner paying second price"),
      Stage("Reference", "Check " + ReferencePath(auction.testPath) + " for the matching Foundry walkthrough") ]
  }

  /** The Commit, Reveal and Finalize details open with the case's window
      lengths, the Commit detail carries the minimum collateral, and the
      Reference detail carries the displayed test path. */
  lemma TimelineEmbedsCase(show: Formatter, fixed2: Formatter, auction: Catalog.AuctionVariant, c: Cases.Case)
    ensures var r := BuildTimeline(show, fixed2, auction, c);
            && OccursAt(r[0].detail, show(c.commitMinutes), 0)
            && Contains(r[0].detail, fixed2(MinCollateral(c)))
            && OccursAt(r[1].detail, show(c.revealMinutes), 0)
            && OccursAt(r[2].detail, show(c.finalizeMinutes), 0)
            && Contains(r[3].detail, ReferencePath(auction.testPath))
  {
    var r := BuildTimeline(show, fixed2, auction, c);
    OccursInConcat([], show(c.commitMinutes), r[0].detail[|show(c.commitMinutes)|..]);
    assert [] + show(c.commitMinutes) + r[0].detail[|show(c.commitMinutes)|..] == r[0].detail;
    OccursInConcat(show(c.commitMinutes) + "m window · lock ≥ ", fixed2(MinCollateral(c)), " ETH collateral per bid");
    OccursInConcat([], show(c.revealMinutes), "m window · validate salt + bid and rank for second price");
    assert [] + show(c.revealMinutes) + "m window · validate salt + bid and rank for second price" == r[1].detail;
    OccursInConcat([], show(c.finalizeMinutes), "m buffer · settle with winner paying second price");
    assert [] + show(c.finalizeMinutes) + "m buffer · settle with winner paying second price" == r[2].detail;
    OccursInConcat("Check ", ReferencePath(auction.testPath), " for the matching Foundry walkthrough");
  }

  /** The minimum collateral of the overcollateralized sample case, a 2.5
      reserve at a 150% ratio, is exactly 3.75 before display rounding. */
  lemma SampleMinCollateral(count: nat)
    ensures MinCollateral(Cases.SampleCase(0, count)) == 3.75
  {
    Catalog.CatalogIdsDistinct();
    Cases.SampleCaseByVariant(0, count);
    var c := Cases.SampleCase(0, count);
    assert c.reserve == 2.5 && c.collateral == 150.0;
  }

  /** Two variants with the same test path give the same timeline, whatever
      their names, phases or other links. */
  lemma TimelineIgnoresPhases(show: Formatter, fixed2: Formatter, a: Catalog.AuctionVariant, b: Catalog.AuctionVariant, c: Cases.Case)
    requires a.testPath == b.testPath
    ensures BuildTimeline(show, fixed2, a, c) == BuildTimeline(show, fixed2, b, c)
  {
  }

  /** A path without "../" is displayed unchanged. */
  lemma ReferencePathUnchanged(p: string)
    requires forall i: nat :: i <= |p| ==> !OccursAt(p, "../", i)
    ensures ReferencePath(p) == p
  {
    ReplaceFirstAbsent(p, "../", "./");
  }

  /** When the first "../" of a path starts at `i`, exactly that one becomes
      "./" and every other character of the path is kept. */
  lemma ReferencePathRewritesFirst(p: string, i: nat)
    requires OccursAt(p, "../", i)
    requires forall j: nat :: j < i ==> !OccursAt(p, "../", j)
    ensures ReferencePath(p) == p[..i] + "./" + p[i + 3..]
    ensures |ReferencePath(p)| == |p| - 1
  {
    ReplaceFirstAt(p, "../", "./", i);
  }

  /** A path that starts with "../" is displayed as "./" followed by the rest. */
  lemma ReferencePathOfParentRelative(p: string)
    requires |p| >= 3 && p[..3] == "../"
    ensures ReferencePath(p) == "./" + p[3..]
  {
    assert OccursAt(p, "../", 0);
    ReferencePathRewritesFirst(p, 0);
  }

  /** For every catalog variant the reference stage points at the test file
      relative to the current directory: "./" followed by the path after its
      leading "../". */
  lemma CatalogReferenceDetail(show: Formatter, fixed2: Formatter, k: nat, c: Cases.Case)
    requires k < |Catalog.Auctions|
    ensures var p := Catalog.Auctions[k].testPath;
            BuildTimeline(show, fixed2, Catalog.Auctions[k], c)[3].detail
              == "Check ./" + p[3..] + " for the matching Foundry walkthrough"
  {
    Catalog.CatalogTestPathsRelative(k);
    ReferenceDetailOfParentRelative(show, fixed2, Catalog.Auctions[k], c);
  }

  /** The reference stage of a variant whose test path starts with "../". */
  lemma ReferenceDetailOfParentRelative(show: Formatter, fixed2: Formatter, a: Catalog.AuctionVariant, c: Cases.Case)
    requires |a.testPath| >= 3 && a.testPath[..3] == "../"
    ensures BuildTimeline(show, fixed2, a, c)[3].detail
              == "Check ./" + a.testPath[3..] + " for the matching Foundry walkthrough"
  {
    ReferencePathOfParentRelative(a.testPath);
  }
}
