/** The module-level `cases` array and the three operations that grow it:
    `upsertCase`, which puts a case in front, and the two user actions
    `handleCaseSubmit` and `seedSampleCase`, which build a case numbered
    after the current count and hand it to `upsertCase`. */
module Repository {
  import Catalog
  import Text
  import Cases

  /** Newest first, numbered by insertion: the case at index `i` of a list of
      `n` cases carries the id given when `n - 1 - i` cases existed. */
  ghost predicate SequentialIds(s: seq<Cases.Case>) {
    forall i :: 0 <= i < |s| ==> s[i].id == Cases.CaseId(|s| - 1 - i)
  }

  /** Putting in front a case numbered after the current count keeps the
      numbering. */
  lemma PrependKeepsSequentialIds(s: seq<Cases.Case>, c: Cases.Case)
    requires SequentialIds(s)
    requires c.id == Cases.CaseId(|s|)
    ensures SequentialIds([c] + s)
  {
    var t := [c] + s;
    forall i | 0 <= i < |t| ensures t[i].id == Cases.CaseId(|t| - 1 - i) {
      if i > 0 {
        assert t[i] == s[i - 1];
      }
    }
  }

  /** Sequentially numbered cases have pairwise different ids. */
  lemma SequentialIdsDistinct(s: seq<Cases.Case>)
    requires SequentialIds(s)
    ensures forall i, j :: 0 <= i < j < |s| ==> s[i].id != s[j].id
  {
    forall i, j | 0 <= i < j < |s| ensures s[i].id != s[j].id {
      assert Text.DecimalValue(s[i].id) == |s| - i;
      assert Text.DecimalValue(s[j].id) == |s| - j;
    }
  }

  /** The `cases` array of a session. */
  class CaseRepository {
    var cases: seq<Cases.Case>

    /** `const cases = []`. */
    constructor ()
      ensures cases == []
      ensures SequentialIds(cases)
    {
      cases := [];
    }

    /** `upsertCase(c)`: `cases.unshift(c)`. The new case is at index 0 and
        the earlier ones follow in their old order. */
    method Upsert(c: Cases.Case)
      modifies this
      ensures cases == [c] + old(cases)
      ensures |cases| == |old(cases)| + 1 && cases[0] == c
      ensures forall i :: 0 <= i < |old(cases)| ==> cases[i + 1] == old(cases)[i]
    {
      cases := [c] + cases;
    }

    /** `handleCaseSubmit`: builds the payload from the submitted form while
        `|cases|` cases exist and puts it in front. */
    method SubmitCase(parse: Cases.Parser, form: Cases.RawForm)
      modifies this
      ensures cases == [Cases.BuildCase(parse, form, |old(cases)|)] + old(cases)
      ensures SequentialIds(old(cases)) ==> SequentialIds(cases)
    {
      var payload := Cases.BuildCase(parse, form, |cases|);
      if SequentialIds(cases) {
        PrependKeepsSequentialIds(cases, payload);
      }
      Upsert(payload);
    }

    /** `seedSampleCase`: builds the sample case for catalog entry `pick`
        (the random draw) while `|cases|` cases exist and puts it in front. */
    method SeedSampleCase(pick: nat)
      requires pick < |Catalog.Auctions|
      modifies this
      ensures cases == [Cases.SampleCase(pick, |old(cases)|)] + old(cases)
      ensures SequentialIds(old(cases)) ==> SequentialIds(cases)
    {
      var payload := Cases.SampleCase(pick, |cases|);
      if SequentialIds(cases) {
        PrependKeepsSequentialIds(cases, payload);
      }
      Upsert(payload);
    }
  }
}
