/** Building case records: the payload of `handleCaseSubmit` from raw form
    fields, the fixed sample case of `seedSampleCase`, and the sequential
    zero-padded case id both of them assign. */
module Cases {
  import opened Wrappers
  import opened Text
  import Catalog

  /** A generated storyboard. The three `...Minutes` fields are the payload's
      `commit`, `reveal` and `finalize` fields. `auctionId` and `notes` hold what the form gave,
      where `None` is the `null` that `FormData.get` returns for a missing field. */
  datatype Case = Case(
    id: string,
    auctionId: Option<string>,
    nftId: string,
    reserve: real,
    collateral: real,
    commitMinutes: real,
    revealMinutes: real,
    finalizeMinutes: real,
    bidders: real,
    notes: Option<string>)

  /** The submitted form fields: name to submitted text. A name that is not
      a key reads as `null`. */
  type RawForm = map<string, string>

  /** JavaScript's `Number(text)` on a string: `Some(x)` for a number, `None`
      for NaN. Its parsing rules are not part of this model. */
  type Parser = string -> Option<real>

  /** The label a case gets when the form leaves the NFT id empty. */
  const DefaultNftId := "#4921"

  /** `formData.get(name)`. */
  function FormGet(form: RawForm, name: string): (r: Option<string>)
    ensures r.Some? <==> name in form
    ensures r.Some? ==> r.value == form[name]
  {
    if name in form then Some(form[name]) else None
  }

  /** `Number(raw)` for a form value: `Number(null)` is 0, text goes to the parser. */
  function ToNumber(parse: Parser, raw: Option<string>): (r: Option<real>)
    ensures raw.None? ==> r == Some(0.0)
    ensures raw.Some? ==> r == parse(raw.value)
  {
    match raw
    case None => Some(0.0)
    case Some(s) => parse(s)
  }

  /** `v || 0` on a number: NaN and zero are falsy and become 0, anything
      else is kept. */
  function OrZero(v: Option<real>): (r: real)
    ensures r == 0.0 <==> v.None? || v.value == 0.0
    ensures r != 0.0 ==> v == Some(r)
  {
    if v.Some? && v.value != 0.0 then v.value else 0.0
  }

  /** What the stored value `v` of numeric field `name` must be: zero exactly
      when the field is absent, does not parse, or parses to zero; otherwise
      the parsed number itself (negative numbers included). */
  ghost predicate Coerced(parse: Parser, form: RawForm, name: string, v: real) {
    && (v == 0.0 <==> name !in form || parse(form[name]).None? || parse(form[name]) == Some(0.0))
    && (v != 0.0 ==> name in form && parse(form[name]) == Some(v))
  }

  /** `Number(data.get(name)) || 0`. */
  function NumericField(parse: Parser, form: RawForm, name: string): (r: real)
    ensures Coerced(parse, form, name, r)
  {
    OrZero(ToNumber(parse, FormGet(form, name)))
  }

  /** The id of the case created when `count` cases exist:
      `${count + 1}`.padStart(2, "0"). It is a decimal numeral, at least two
      characters long, whose value is the new size of the repository. */
  function CaseId(count: nat): (id: string)
    ensures IsDigits(id) && |id| >= 2
    ensures DecimalValue(id) == count + 1
  {
    DecimalRoundTrip(count + 1);
    PadStartZerosValue(NatToDecimal(count + 1), 2);
    PadStart(NatToDecimal(count + 1), 2, '0')
  }

  /** Below ten the id is "0" and one digit; from ten on it is the plain
      decimal numeral, so counts 9 and above are not padded. */
  lemma CaseIdShape(count: nat)
    ensures count < 9 ==> CaseId(count) == ['0', DigitChar(count + 1)]
    ensures count >= 9 ==> CaseId(count) == NatToDecimal(count + 1)
  {
    if count < 9 {
      assert NatToDecimal(count + 1) == [DigitChar(count + 1)];
    } else {
      assert |NatToDecimal(count + 1)| >= 2;
    }
  }

  /** The ids given at counts 0 and 9: "01" and "10". */
  lemma CaseIdExamples()
    ensures CaseId(0) == "01"
    ensures CaseId(9) == "10"
  {
    assert CaseId(0) == "01" by { CaseIdShape(0); }
    CaseIdShape(9);
    assert NatToDecimal(10) == NatToDecimal(1) + [DigitChar(0)];
  }

  /** At count 99 the id has three digits and no padding: "100". */
  lemma CaseIdThreeDigits()
    ensures CaseId(99) == "100"
  {
    CaseIdShape(99);
    assert NatToDecimal(100) == NatToDecimal(10) + [DigitChar(0)];
  }

  /** Different counts give different ids. */
  lemma CaseIdInjective(a: nat, b: nat)
    requires CaseId(a) == CaseId(b)
    ensures a == b
  {
  }

  /** The payload `handleCaseSubmit` builds when `count` cases exist. */
  function BuildCase(parse: Parser, form: RawForm, count: nat): (c: Case)
    ensures c.id == CaseId(count)
    ensures c.auctionId == FormGet(form, "auctionId") && c.notes == FormGet(form, "notes")
    ensures c.nftId != ""
    ensures c.nftId == DefaultNftId <==> "nftId" !in form || form["nftId"] in {"", DefaultNftId}
    ensures c.nftId != DefaultNftId ==> c.nftId == form["nftId"]
    ensures Coerced(parse, form, "reserve", c.reserve)
    ensures Coerced(parse, form, "collateral", c.collateral)
    ensures Coerced(parse, form, "commit", c.commitMinutes)
    ensures Coerced(parse, form, "reveal", c.revealMinutes)
    ensures Coerced(parse, form, "finalize", c.finalizeMinutes)
    ensures Coerced(parse, form, "bidders", c.bidders)
  {
    var nft := FormGet(form, "nftId");
    Case(
      CaseId(count),
      FormGet(form, "auctionId"),
      if nft.Some? && nft.value != "" then nft.value else DefaultNftId,
      NumericField(parse, form, "reserve"),
      NumericField(parse, form, "collateral"),
      NumericField(parse, form, "commit"),
      NumericField(parse, form, "reveal"),
      NumericField(parse, form, "finalize"),
      NumericField(parse, form, "bidders"),
      FormGet(form, "notes"))
  }

  /** The submission of a form with a known variant, an empty NFT id, a
      non-numeric collateral, an empty reveal window and no notes, against an
      empty repository. */
  lemma BuildCaseExample(parse: Parser)
    requires parse("2") == Some(2.0) && parse("abc") == None && parse("10") == Some(10.0)
    requires parse("") == Some(0.0) && parse("5") == Some(5.0) && parse("3") == Some(3.0)
    ensures var form := map["auctionId" := "sneaky", "nftId" := "", "reserve" := "2",
                            "collateral" := "abc", "commit" := "10", "reveal" := "",
                            "finalize" := "5", "bidders" := "3"];
            BuildCase(parse, form, 0)
              == Case("01", Some("sneaky"), "#4921", 2.0, 0.0, 10.0, 0.0, 5.0, 3.0, None)
  {
    var form := map["auctionId" := "sneaky", "nftId" := "", "reserve" := "2",
                    "collateral" := "abc", "commit" := "10", "reveal" := "",
                    "finalize" := "5", "bidders" := "3"];
    assert CaseId(0) == "01" by { CaseIdExamples(); }
    assert "notes" !in form;
    assert NumericField(parse, form, "reserve") == 2.0;
    assert NumericField(parse, form, "collateral") == 0.0;
    assert NumericField(parse, form, "commit") == 10.0;
    assert NumericField(parse, form, "reveal") == 0.0;
    assert NumericField(parse, form, "finalize") == 5.0;
    assert NumericField(parse, form, "bidders") == 3.0;
  }

  /** The per-variant notes of a sample case (`sampleNotes`). */
  const SampleNotes: map<string, string> := map[
    "overcollateralized" := "Stress test griefing resistance with 1.5x collateral and a tight 30m reveal window.",
    "sneaky" := "Show how ordered storage writes leak rank; track gas deltas between reveal orderings.",
    "aztec" := "Demonstrate private commits from Aztec Connect and public settlement on L1."
  ]

  /** Every catalog variant has a non-empty sample note, so the lookup
      `sampleNotes[pick.id]` of a sample case always finds one. */
  lemma SampleNotesCoverCatalog(k: nat)
    requires k < |Catalog.Auctions|
    ensures Catalog.Auctions[k].id in SampleNotes
    ensures SampleNotes[Catalog.Auctions[k].id] != ""
  {
    Catalog.CatalogIdsDistinct();
    var id := Catalog.Auctions[k].id;
    assert id == "overcollateralized" || id == "sneaky" || id == "aztec";
  }

  /** The sample case `seedSampleCase` builds for catalog entry `pick` when
      `count` cases exist; `pick` stands for the random draw. */
  function SampleCase(pick: nat, count: nat): (c: Case)
    requires pick < |Catalog.Auctions|
    ensures c.id == CaseId(count)
    ensures c.auctionId.Some? && Catalog.IsCatalogId(c.auctionId.value)
    ensures c.notes.Some? && c.notes.value != ""
    ensures c.reserve > 0.0 && c.collateral >= 100.0 && c.commitMinutes > 0.0
    ensures c.revealMinutes > 0.0 && c.finalizeMinutes > 0.0 && c.bidders > 0.0
  {
    SampleNotesCoverCatalog(pick);
    var id := Catalog.Auctions[pick].id;
    Case(
      CaseId(count),
      Some(id),
      "#721-demo",
      2.5,
      if id == "overcollateralized" then 150.0 else 100.0,
      if id == "aztec" then 20.0 else 30.0,
      25.0,
      15.0,
      4.0,
      Some(SampleNotes[id]))
  }

  /** A sample case names the very catalog entry that was drawn. */
  lemma SampleCaseResolves(pick: nat, count: nat)
    requires pick < |Catalog.Auctions|
    ensures Catalog.SelectAuction(SampleCase(pick, count).auctionId.value) == Catalog.Auctions[pick]
  {
    Catalog.SelectAuctionOfEntry(pick);
  }

  /** The per-variant overrides: collateral 150 only for the
      overcollateralized variant, a 20 minute commit window only for the
      Aztec variant; reserve 2.5, windows 25/15 and 4 bidders for all. */
  lemma SampleCaseByVariant(pick: nat, count: nat)
    requires pick < |Catalog.Auctions|
    ensures Catalog.Auctions[pick].id in SampleNotes
    ensures var c := SampleCase(pick, count);
            && (c.collateral == 150.0 <==> Catalog.Auctions[pick].id == "overcollateralized")
            && (c.collateral != 150.0 ==> c.collateral == 100.0)
            && (c.commitMinutes == 20.0 <==> Catalog.Auctions[pick].id == "aztec")
            && (c.commitMinutes != 20.0 ==> c.commitMinutes == 30.0)
            && c.reserve == 2.5 && c.revealMinutes == 25.0 && c.finalizeMinutes == 15.0 && c.bidders == 4.0
            && c.nftId == "#721-demo"
            && c.notes == Some(SampleNotes[Catalog.Auctions[pick].id])
  {
    SampleNotesCoverCatalog(pick);
  }
}
