# Auction zoo demo: the case storyboard engine

This project models the logic of the auction-zoo demo page (`demo/app.js`)
that is not presentation. The page shows a fixed catalog of three sealed-bid
Vickrey auction variants and lets the user generate "cases". A case is a
storyboard for one variant. It has a reserve price, a collateral ratio,
commit/reveal/finalize windows and a bidder count. Each case card shows a
four-stage timeline.

The model has five parts:

- **Catalog** (`catalog.dfy`, module `Catalog`). The `auctions` array is the
  constant `Auctions`, with every entry's data. `SelectAuction` is the
  `find(...) || auctions[0]` lookup of `selectAuction`.
- **Case construction** (`cases.dfy`, module `Cases`). `BuildCase` builds the
  payload of `handleCaseSubmit` from the raw form fields. Each numeric field
  is `Number(x) || 0`. `nftId` defaults to `"#4921"`. `CaseId` is the id
  `${count + 1}`.padStart(2, "0").
- **Sample cases** (`cases.dfy`). `SampleCase` is the payload of
  `seedSampleCase`, with its per-variant overrides and `sampleNotes`.
- **Case repository** (`repository.dfy`, module `Repository`). The class
  `CaseRepository` holds the `cases` array as a sequence field. `Upsert` is
  `upsertCase` (`cases.unshift`). `SubmitCase` and `SeedSampleCase` are the
  two user actions. Each reads the count, builds a case and puts it in front.
- **Timeline** (`timeline.dfy`, module `Timeline`). `BuildTimeline` is
  `buildTimeline`. Its last stage shows the test path with its first `../`
  replaced by `./` (`ReferencePath`).

String operations are in `text.dfy` (module `Text`):

- the decimal rendering of a count (`NatToDecimal`) and an independent
  reading of it (`DecimalValue`);
- `padStart` with one filler character (`PadStart`);
- `String.prototype.replace` with a string pattern and a replacement without
  `$` patterns (`ReplaceFirst`).

`wrappers.dfy` holds the `Option` type. `None` stands for JavaScript's `null`
and for NaN.

Inputs from the host are parameters:

- `parse: string -> Option<real>` stands for JavaScript's `Number(text)`. It
  gives `None` for NaN.
- A form submission is a `map<string, string>`. A missing key is the `null`
  that `FormData.get` returns. `Number(null)` is 0, and the model says so
  explicitly (`ToNumber`).
- `show` and `fixed2` stand for the number-to-text conversions `${x}` and
  `x.toFixed(2)`.
- The random variant pick of `seedSampleCase` is an index `pick < 3`.

Behaviour of the code that the model keeps:

- A submitted `auctionId` is stored exactly as given. It may be `null` or an
  unknown id. The fallback to the first catalog entry exists only in
  `selectAuction`.
- Numeric fields are not checked for sign. A negative number that parses is
  stored as it is.
- The reference path rewrite replaces the first `../` anywhere in the path.
  All catalog paths start with `../` (`CatalogTestPathsRelative`), so for
  the catalog it is the leading one (`CatalogReferenceDetail`).
- `selectAuction` stores no "active variant"; it looks the variant up and
  renders it. The selection is modelled as the lookup function
  `SelectAuction`.
- The sample overrides are two conditionals on the picked id, and the model
  keeps them.
- A submitted form without a `notes` field stores `null` notes (`None`).

## Model

| member | source | states |
|---|---|---|
| Catalog.FindIndex | demo/app.js:250 | the position found is that of the first entry carrying the id; no position means no entry carries it |
| Catalog.SelectAuction | demo/app.js:249-254 | the result is always a catalog entry; it carries the requested id exactly when the id is a catalog id; otherwise it is the first entry |
| Catalog.CatalogIdsDistinct | demo/app.js:1-107 | the catalog has three entries, "overcollateralized", "sneaky" and "aztec", with pairwise different ids |
| Catalog.SelectAuctionOfEntry | demo/app.js:250 | looking up the id of any catalog entry gives back that entry |
| Catalog.SelectAuctionIdempotent | demo/app.js:249-254 | selecting the id of a selected variant selects the same variant again |
| Catalog.CatalogTestPathsRelative | demo/app.js:1-107 | every catalog test path starts with "../" |
| Text.NatToDecimal | demo/app.js:346 | the rendering of a count is a non-empty string of decimal digits, without a leading zero unless the count is 0, and one character long exactly below 10 |
| Text.DecimalRoundTrip | demo/app.js:346 | reading back the decimal rendering of n gives n |
| Text.LeadingZerosValue | demo/app.js:346 | zeros put in front of a numeral do not change its value |
| Text.PadStart | demo/app.js:346 | the padded string is the original when it is at least the width long, else exactly the width long; it ends with the original and is filler before it |
| Text.PadStartZerosValue | demo/app.js:346 | padding a numeral with zeros keeps it a numeral of the same value |
| Text.ReplaceFirst | demo/app.js:337 | a replacement leaves the string unchanged or changes its length by the replacement's length minus the pattern's |
| Text.ReplaceFirstAbsent | demo/app.js:337 | replacing a pattern that does not occur leaves the string unchanged |
| Text.ReplaceFirstAt | demo/app.js:337 | when the first occurrence of the pattern starts at i, only that occurrence is replaced and everything before and after it is kept |
| Cases.NumericField | demo/app.js:349-354 | a numeric field is 0 exactly when it is absent (`Number(null)` is 0), fails to parse or parses to 0; otherwise it is the parsed number, negatives included |
| Cases.CaseId | demo/app.js:346 | a case id is a numeral at least two characters long whose value is the count plus one |
| Cases.CaseIdShape | demo/app.js:346 | below count 9 the id is "0" and one digit; from count 9 on it is the unpadded numeral of count plus one |
| Cases.CaseIdExamples | demo/app.js:346 | counts 0 and 9 give "01" and "10" |
| Cases.CaseIdThreeDigits | demo/app.js:346 | count 99 gives "100", three digits and no padding |
| Cases.CaseIdInjective | demo/app.js:346 | different counts give different case ids |
| Cases.BuildCase | demo/app.js:345-356 | the submitted case is numbered after the count; auctionId and notes are stored as given; nftId is "#4921" exactly when the field is absent, empty or already "#4921", and otherwise the given text; every numeric field is coerced as NumericField states |
| Cases.BuildCaseExample | demo/app.js:345-356 | a form with auctionId "sneaky", empty nftId, reserve "2", collateral "abc", commit "10", empty reveal, finalize "5" and bidders "3" gives case "01" with nftId "#4921" and numbers 2, 0, 10, 0, 5, 3, and no notes |
| Cases.SampleCase | demo/app.js:361-374 | a sample case is numbered after the count, names a catalog id, has non-empty notes and positive numbers, with collateral at least 100 |
| Cases.SampleNotesCoverCatalog | demo/app.js:132-136 | every catalog variant has a non-empty entry in sampleNotes, so a sample case always finds its notes |
| Cases.SampleCaseResolves | demo/app.js:362-365 | looking up a sample case's auction id gives the catalog entry that was drawn |
| Cases.SampleCaseByVariant | demo/app.js:363-374 | collateral is 150 exactly for the overcollateralized variant and 100 otherwise; commit is 20 exactly for aztec and 30 otherwise; reserve 2.5, reveal 25, finalize 15, 4 bidders, nftId "#721-demo", notes from sampleNotes |
| Timeline.MinCollateral | demo/app.js:321 | the minimum collateral is non-negative for non-negative inputs and equals the reserve at a 100% ratio |
| Timeline.SampleMinCollateral | demo/app.js:321 | the overcollateralized sample case, reserve 2.5 at 150%, needs exactly 3.75 collateral per bid before display rounding |
| Timeline.BuildTimeline | demo/app.js:320-340 | a timeline always has exactly four stages, labelled Commit, Reveal, Finalize, Reference in that order |
| Timeline.ReferencePath | demo/app.js:337 | the displayed test path is the path itself or one character shorter |
| Timeline.TimelineEmbedsCase | demo/app.js:322-339 | the Commit, Reveal and Finalize details begin with the case's commit, reveal and finalize values; the Commit detail contains the minimum collateral; the Reference detail contains the displayed test path |
| Timeline.TimelineIgnoresPhases | demo/app.js:320-340 | variants that share a test path give identical timelines, so the declared phases play no part |
| Timeline.ReferencePathUnchanged | demo/app.js:337 | a test path without "../" is displayed unchanged |
| Timeline.ReferencePathRewritesFirst | demo/app.js:337 | only the first "../" becomes "./", every other character is kept, and the path gets one character shorter |
| Timeline.ReferencePathOfParentRelative | demo/app.js:337 | a path that starts with "../" is displayed as "./" followed by the rest of the path |
| Timeline.ReferenceDetailOfParentRelative | demo/app.js:337 | for a variant whose test path starts with "../", the Reference detail names "./" followed by the rest of the path |
| Timeline.CatalogReferenceDetail | demo/app.js:337 | for every catalog variant the Reference detail names "./" followed by the test path after its leading "../" |
| Repository.PrependKeepsSequentialIds | demo/app.js:346 | putting in front a case numbered after the current count keeps the list numbered newest first |
| Repository.SequentialIdsDistinct | demo/app.js:346 | the cases of a sequentially numbered list have pairwise different ids |
| Repository.CaseRepository.constructor | demo/app.js:138 | a new repository is empty, which counts as sequentially numbered |
| Repository.CaseRepository.Upsert | demo/app.js:265-268 | the new case is at index 0, the list is one longer, and the earlier cases follow in their old order, unchanged |
| Repository.CaseRepository.SubmitCase | demo/app.js:342-359 | the case built from the form at the old count is put in front of the old list; sequential numbering is preserved |
| Repository.CaseRepository.SeedSampleCase | demo/app.js:361-377 | the sample case for the drawn entry at the old count is put in front of the old list; sequential numbering is preserved |

## Left out

- Rendering and browser I/O are not modelled. This covers `renderFeatureGrid`, `renderHeroSnapshot`, `renderAuctionList`, `renderAuctionDetails`, `renderCases`, `updateFormOptions` and `init`. So the rendering calls at the end of `selectAuction`, `upsertCase` and `seedSampleCase` are left out, and so is the static `featureGrid`.
- `renderCases` looks up each case's variant with an unguarded `find`. It also replaces empty notes with `sampleNotes` at render time. Both are presentation and are not modelled; the model adds no fallback there.
- Event wiring (`addEventListener`, `preventDefault`, `FormData`) is not modelled. A submission is a map from field names to text. A `File` value from `FormData.get` is not represented.
- `Math.random` is not modelled. `SeedSampleCase` and `SampleCase` take the drawn index as a parameter.
- JavaScript's `Number(text)` is not modelled. It is the parameter `parse`.
- Numbers are exact reals, not IEEE doubles. So `-0`, `Infinity` and rounding of the product `reserve * (collateral / 100)` are not represented. Case counts are unbounded naturals.
- `${x}` and `toFixed(2)` are the parameters `show` and `fixed2`. The 2-decimal rounding of the minimum collateral is not modelled; 2.5 × 150% is exactly 3.75 in the model.
- `String.prototype.replace` expands `$&`, `$$` and similar patterns in the replacement; `ReplaceFirst` does not. The only replacement used, `"./"`, has none.
- Timeline.BuildTimeline: its contract states only the stage count and the labels. The detail texts are stated as prefixes and contained parts by `TimelineEmbedsCase`, not as whole strings.
