/** The glue around the external analyzer and anonymizer
    (`presidio_anonymize_text`). The two engines are not modelled: each is a
    parameter that returns `None` where the library raises. What is modelled
    is what the function itself computes: the entity names it requests, the
    supplementary candidates it adds, the ledger it builds from the reported
    offsets, the operator table it passes, and the fall-back to the basic
    anonymizer when anything raises. */
module Presidio {
  import opened Optional
  import opened Matching
  import opened Categories
  import opened Ledger
  import opened Additional
  import opened Basic
  import Text

  /** `RecognizerResult(entity_type, start, end, score)`, score in
      hundredths. */
  datatype AnalyzerResult = AnalyzerResult(entityType: string, start: nat, end: nat, score: nat)

  /** `analyzer.analyze(text=…, language="en", entities=…, score_threshold=…)`. */
  type Analyzer = (string, seq<string>, nat) -> Option<seq<AnalyzerResult>>

  /** `anonymizer.anonymize(text=…, analyzer_results=…, operators=…).text`;
      operators map an entity name to its replacement value. */
  type Anonymizer = (string, seq<AnalyzerResult>, map<string, string>) -> Option<string>

  /** The score threshold passed to the analyzer, 0.65 in hundredths. */
  const Threshold: nat := 65

  /** The selection keys the engine maps to its own built-in entities. */
  const BuiltIns: seq<string> := ["PERSON_NAME", "EMAIL_ADDRESS", "PHONE_NUMBER", "ADDRESS", "LOCATION"]

  /** The built-in entities requested for a selection, in the order the
      source appends them; PERSON_NAME is requested as PERSON and NRP. */
  function BuiltInEntities(names: seq<string>): seq<string> {
    (if "PERSON_NAME" in names then ["PERSON", "NRP"] else [])
    + (if "EMAIL_ADDRESS" in names then ["EMAIL_ADDRESS"] else [])
    + (if "PHONE_NUMBER" in names then ["PHONE_NUMBER"] else [])
    + (if "ADDRESS" in names then ["ADDRESS"] else [])
    + (if "LOCATION" in names then ["LOCATION"] else [])
  }

  /** The selected names that are not built-ins, passed through unchanged
      and in order. */
  function PassThrough(names: seq<string>): seq<string>
    decreases |names|
  {
    if |names| == 0 then []
    else
      var last := names[|names| - 1];
      PassThrough(names[..|names| - 1]) + (if last in BuiltIns then [] else [last])
  }

  /** The entity list passed to the analyzer. */
  function Requested(names: seq<string>): seq<string> {
    BuiltInEntities(names) + PassThrough(names)
  }

  /** The entity-list construction: the built-ins first, then every other
      selected name. */
  method RequestedEntities(names: seq<string>) returns (entities: seq<string>)
    ensures entities == Requested(names)
  {
    entities := RequestBuiltIns(names);
    for i := 0 to |names|
      invariant entities == BuiltInEntities(names) + PassThrough(names[..i])
    {
      if names[i] !in BuiltIns {
        entities := entities + [names[i]];
      }
      assert names[..i + 1][..i] == names[..i];
    }
    assert names[..|names|] == names;
  }

  /** The five conditional appends of the built-in entities. */
  method RequestBuiltIns(names: seq<string>) returns (entities: seq<string>)
    ensures entities == BuiltInEntities(names)
  {
    entities := [];
    if "PERSON_NAME" in names {
      entities := entities + ["PERSON", "NRP"];
    }
    assert entities == if "PERSON_NAME" in names then ["PERSON", "NRP"] else [];
    if "EMAIL_ADDRESS" in names {
      entities := entities + ["EMAIL_ADDRESS"];
    }
    assert entities == (if "PERSON_NAME" in names then ["PERSON", "NRP"] else [])
      + (if "EMAIL_ADDRESS" in names then ["EMAIL_ADDRESS"] else []);
    if "PHONE_NUMBER" in names {
      entities := entities + ["PHONE_NUMBER"];
    }
    if "ADDRESS" in names {
      entities := entities + ["ADDRESS"];
    }
    if "LOCATION" in names {
      entities := entities + ["LOCATION"];
    }
  }

  /** A name passes through exactly when it is selected and not a
      built-in. */
  lemma {:induction false} PassThroughMembers(names: seq<string>, e: string)
    ensures e in PassThrough(names) <==> e in names && e !in BuiltIns
    decreases |names|
  {
    if |names| > 0 {
      var front := names[..|names| - 1];
      PassThroughMembers(front, e);
      assert names == front + [names[|names| - 1]];
    }
  }

  /** An entity is requested exactly when it is a selected name other than
      PERSON_NAME, or it is PERSON or NRP and PERSON_NAME is selected. */
  lemma RequestedMembers(names: seq<string>, e: string)
    ensures e in Requested(names) <==>
      (e in names && e != "PERSON_NAME") || ("PERSON_NAME" in names && (e == "PERSON" || e == "NRP"))
  {
    PassThroughMembers(names, e);
  }

  /** The analyzer's view of a supplementary candidate. */
  function AsResult(c: Candidate): AnalyzerResult {
    AnalyzerResult(Name(c.entityType), c.start, c.end, c.score)
  }

  /** The supplementary candidates whose type is selected, in order. */
  function Kept(names: seq<string>, cs: seq<Candidate>): seq<AnalyzerResult>
    decreases |cs|
  {
    if |cs| == 0 then []
    else
      var last := cs[|cs| - 1];
      Kept(names, cs[..|cs| - 1]) + (if Name(last.entityType) in names then [AsResult(last)] else [])
  }

  /** A result is kept exactly when it comes from a candidate of a selected
      type. */
  lemma {:induction false} KeptMembers(names: seq<string>, cs: seq<Candidate>, r: AnalyzerResult)
    ensures r in Kept(names, cs) <==> exists c :: c in cs && Name(c.entityType) in names && r == AsResult(c)
    decreases |cs|
  {
    if |cs| > 0 {
      var front := cs[..|cs| - 1];
      KeptMembers(names, front, r);
      assert cs == front + [cs[|cs| - 1]];
    }
  }

  /** The ledger of the reported results: for each, the text between its
      offsets (with Python's slice clamping) under its lower-cased type. */
  function Collected(text: string, rs: seq<AnalyzerResult>): Ledger
    decreases |rs|
  {
    if |rs| == 0 then map[]
    else
      var r := rs[|rs| - 1];
      Record(Collected(text, rs[..|rs| - 1]), Text.Lower(r.entityType), Text.PySlice(text, r.start, r.end))
  }

  /** Collecting one more result records its text under its type. */
  lemma CollectedStep(text: string, rs: seq<AnalyzerResult>, i: nat)
    requires i < |rs|
    ensures Collected(text, rs[..i + 1])
         == Record(Collected(text, rs[..i]), Text.Lower(rs[i].entityType), Text.PySlice(text, rs[i].start, rs[i].end))
  {
    assert rs[..i + 1][..i] == rs[..i];
  }

  /** The collected ledger has only non-empty duplicate-free lists. */
  lemma {:induction false} CollectedValid(text: string, rs: seq<AnalyzerResult>)
    ensures Valid(Collected(text, rs))
    decreases |rs|
  {
    if |rs| > 0 {
      var front := rs[..|rs| - 1];
      var r := rs[|rs| - 1];
      CollectedValid(text, front);
      RecordValid(Collected(text, front), Text.Lower(r.entityType), Text.PySlice(text, r.start, r.end));
    }
  }

  /** A key is present exactly when some result has that lower-cased type. */
  lemma {:induction false} CollectedKeys(text: string, rs: seq<AnalyzerResult>, k: string)
    ensures k in Collected(text, rs) <==> exists i :: 0 <= i < |rs| && Text.Lower(rs[i].entityType) == k
    decreases |rs|
  {
    if |rs| > 0 {
      var front := rs[..|rs| - 1];
      CollectedKeys(text, front, k);
      if exists i :: 0 <= i < |rs| && Text.Lower(rs[i].entityType) == k {
        var i :| 0 <= i < |rs| && Text.Lower(rs[i].entityType) == k;
        if i < |front| {
          assert front[i] == rs[i];
        }
      }
      if exists i :: 0 <= i < |front| && Text.Lower(front[i].entityType) == k {
        var i :| 0 <= i < |front| && Text.Lower(front[i].entityType) == k;
        assert rs[i] == front[i];
      }
    }
  }

  /** Some result of lower-cased type `k` spans the text `v`. */
  ghost predicate Spans(text: string, rs: seq<AnalyzerResult>, k: string, v: string) {
    exists i :: 0 <= i < |rs| && Text.Lower(rs[i].entityType) == k && Text.PySlice(text, rs[i].start, rs[i].end) == v
  }

  lemma SpansSnoc(text: string, rs: seq<AnalyzerResult>, k: string, v: string)
    requires |rs| > 0
    ensures var r := rs[|rs| - 1];
      Spans(text, rs, k, v) <==>
        Spans(text, rs[..|rs| - 1], k, v) || (Text.Lower(r.entityType) == k && Text.PySlice(text, r.start, r.end) == v)
  {
    var front := rs[..|rs| - 1];
    if Spans(text, rs, k, v) {
      var i :| 0 <= i < |rs| && Text.Lower(rs[i].entityType) == k && Text.PySlice(text, rs[i].start, rs[i].end) == v;
      if i < |front| {
        assert front[i] == rs[i];
      }
    }
    if Spans(text, front, k, v) {
      var i :| 0 <= i < |front| && Text.Lower(front[i].entityType) == k && Text.PySlice(text, front[i].start, front[i].end) == v;
      assert rs[i] == front[i];
    }
  }

  /** A text is listed under a key exactly when some result of that
      lower-cased type spans it. */
  lemma {:induction false} CollectedValues(text: string, rs: seq<AnalyzerResult>, k: string, v: string)
    requires k in Collected(text, rs)
    ensures v in Collected(text, rs)[k] <==> Spans(text, rs, k, v)
    decreases |rs|
  {
    var front := rs[..|rs| - 1];
    SpansSnoc(text, rs, k, v);
    if k in Collected(text, front) {
      CollectedValues(text, front, k, v);
    } else if Spans(text, front, k, v) {
      CollectedKeys(text, front, k);
    }
  }

  /** `operators`: a replacement value per entity name, `<REDACTED>` for
      any other. */
  const Operators: map<string, string> := map[
    "DEFAULT" := "<REDACTED>",
    "PERSON_NAME" := "<NAME>",
    "PERSON" := "<NAME>",
    "NRP" := "<NAME>",
    "EMAIL_ADDRESS" := "<EMAIL>",
    "PHONE_NUMBER" := "<PHONE>",
    "SOCIAL_MEDIA" := "<SOCIAL_MEDIA>",
    "DATE_OF_BIRTH" := "<DOB>",
    "GENDER" := "<GENDER>",
    "MARITAL_STATUS" := "<MARITAL_STATUS>",
    "FAMILY_INFO" := "<FAMILY_INFO>",
    "ADDRESS" := "<ADDRESS>",
    "EDUCATION_DATES" := "<EDUCATION_DATES>",
    "WORK_DATES" := "<WORK_DATES>",
    "PHOTO_REFERENCES" := "<PHOTO>",
    "AGE" := "<AGE>",
    "NATIONALITY" := "<NATIONALITY>",
    "RELIGION" := "<RELIGION>",
    "LOCATION" := "<LOCATION>",
    "COMPANY_NAME" := "<COMPANY>",
    "SCHOOL_NAME" := "<SCHOOL>"]

  /** The table's default is `<REDACTED>`, and the names PERSON_NAME is
      requested as are replaced by `<NAME>` like PERSON_NAME itself. */
  lemma OperatorDefaults()
    ensures Operators["DEFAULT"] == "<REDACTED>"
    ensures Operators["PERSON"] == Operators["NRP"] == Operators["PERSON_NAME"] == "<NAME>"
  {
  }

  /** Every category key has an operator of its own. */
  lemma OperatorsCoverCategories(c: Category)
    ensures Name(c) in Operators && Operators[Name(c)] != "<REDACTED>"
  {
    match c
    case PersonName =>
    case EmailAddress =>
    case PhoneNumber =>
    case SocialMedia =>
    case DateOfBirth =>
    case Gender =>
    case MaritalStatus =>
    case FamilyInfo =>
    case Address =>
    case EducationDates =>
    case WorkDates =>
    case PhotoReferences =>
    case Age =>
    case Nationality =>
    case Religion =>
    case Location =>
    case CompanyName =>
    case SchoolName =>
  }

  /** Every entity requested for a selection of category keys has its own
      operator, so none falls to the default. */
  lemma RequestedHaveOperators(names: seq<string>, e: string)
    requires forall s :: s in names ==> Parse(s).Some?
    requires e in Requested(names)
    ensures e in Operators && Operators[e] != "<REDACTED>"
  {
    RequestedMembers(names, e);
    if e == "PERSON" || e == "NRP" {
      OperatorDefaults();
    } else {
      var c := Parse(e).value;
      ParsedIsName(e, c);
      OperatorsCoverCategories(c);
    }
  }

  /** The `try` block: request the entities, add the selected
      supplementary candidates to what the analyzer found, build the ledger
      from their offsets and anonymize; `None` when either engine raises. */
  function Attempt(matcher: Matcher, analyzer: Analyzer, anonymizer: Anonymizer,
                   text: string, names: seq<string>): Option<Outcome>
    requires Sound(matcher)
  {
    match analyzer(text, Requested(names), Threshold)
    case None => None
    case Some(found) =>
      var results := found + Kept(names, Supplementary(matcher, text));
      match anonymizer(text, results, Operators)
      case None => None
      case Some(anonymized) => Some(Outcome(anonymized, Collected(text, results)))
  }

  /** The whole function: a blank text is returned as is with an empty
      ledger; otherwise the engines' outcome, or the basic anonymizer's if
      they raise. */
  function PresidioSpec(matcher: Matcher, analyzer: Analyzer, anonymizer: Anonymizer,
                        text: string, selection: Option<seq<string>>): Option<Outcome>
    requires Sound(matcher)
  {
    if Text.IsBlank(text) then Some(Outcome(text, map[]))
    else
      var names := Selected(selection);
      match Attempt(matcher, analyzer, anonymizer, text, names)
      case None => BasicSpec(matcher, text, Some(names))
      case Some(o) => Some(o)
  }

  /** `presidio_anonymize_text(text, analyzer, anonymizer, selected_types)`. */
  method PresidioAnonymize(matcher: Matcher, analyzer: Analyzer, anonymizer: Anonymizer,
                           text: string, selection: Option<seq<string>>)
    returns (out: Option<Outcome>)
    requires Sound(matcher)
    ensures out == PresidioSpec(matcher, analyzer, anonymizer, text, selection)
  {
    if Text.IsBlank(text) {
      return Some(Outcome(text, map[]));
    }
    var names := Selected(selection);
    out := TryEngines(matcher, analyzer, anonymizer, text, names);
    if out.None? {
      out := BasicAnonymize(matcher, text, Some(names));
    }
  }

  /** The statements of the `try` block. */
  method TryEngines(matcher: Matcher, analyzer: Analyzer, anonymizer: Anonymizer,
                    text: string, names: seq<string>)
    returns (attempt: Option<Outcome>)
    requires Sound(matcher)
    ensures attempt == Attempt(matcher, analyzer, anonymizer, text, names)
  {
    var entities := RequestedEntities(names);
    var found := analyzer(text, entities, Threshold);
    if found.None? {
      return None;
    }
    var additional := ExtractAdditionalPii(matcher, text);
    var results := AppendKept(found.value, names, additional);
    var ledger := CollectEntities(text, results);
    var anonymized := anonymizer(text, results, Operators);
    if anonymized.None? {
      return None;
    }
    return Some(Outcome(anonymized.value, ledger));
  }

  /** The loop that appends the supplementary candidates of a selected
      type to the analyzer's results. */
  method AppendKept(found: seq<AnalyzerResult>, names: seq<string>, additional: seq<Candidate>)
    returns (results: seq<AnalyzerResult>)
    ensures results == found + Kept(names, additional)
  {
    results := found;
    for i := 0 to |additional|
      invariant results == found + Kept(names, additional[..i])
    {
      var c := additional[i];
      if Name(c.entityType) in names {
        results := results + [AsResult(c)];
      }
      assert additional[..i + 1][..i] == additional[..i];
    }
    assert additional[..|additional|] == additional;
  }

  /** The ledger-building loop over the results. */
  method CollectEntities(text: string, results: seq<AnalyzerResult>) returns (ledger: Ledger)
    ensures ledger == Collected(text, results)
  {
    ledger := map[];
    for i := 0 to |results|
      invariant ledger == Collected(text, results[..i])
    {
      var r := results[i];
      var entityText := Text.PySlice(text, r.start, r.end);
      ledger := Record(ledger, Text.Lower(r.entityType), entityText);
      CollectedStep(text, results, i);
    }
    assert results[..|results|] == results;
  }

  /** If the analyzer raises, the outcome is the basic anonymizer's. */
  lemma AnalyzerFailureFallsBack(matcher: Matcher, analyzer: Analyzer, anonymizer: Anonymizer,
                                 text: string, selection: Option<seq<string>>)
    requires Sound(matcher) && !Text.IsBlank(text)
    requires analyzer(text, Requested(Selected(selection)), Threshold).None?
    ensures PresidioSpec(matcher, analyzer, anonymizer, text, selection) == BasicSpec(matcher, text, selection)
  {
  }

  /** If the anonymizer raises, the outcome is the basic anonymizer's too:
      the ledger already built is dropped. */
  lemma AnonymizerFailureFallsBack(matcher: Matcher, analyzer: Analyzer, anonymizer: Anonymizer,
                                   text: string, selection: Option<seq<string>>)
    requires Sound(matcher) && !Text.IsBlank(text)
    requires var found := analyzer(text, Requested(Selected(selection)), Threshold);
      found.Some? &&
      anonymizer(text, found.value + Kept(Selected(selection), Supplementary(matcher, text)), Operators).None?
    ensures PresidioSpec(matcher, analyzer, anonymizer, text, selection) == BasicSpec(matcher, text, selection)
  {
  }

  /** Every supplementary candidate that is kept names a selected category. */
  lemma KeptSelected(names: seq<string>, cs: seq<Candidate>)
    ensures forall r :: r in Kept(names, cs) ==> exists c :: Parse(r.entityType) == Some(c) && Name(c) in names
  {
    forall r | r in Kept(names, cs)
      ensures exists c :: Parse(r.entityType) == Some(c) && Name(c) in names
    {
      KeptMembers(names, cs, r);
      var c :| c in cs && Name(c.entityType) in names && r == AsResult(c);
      ParseName(c.entityType);
    }
  }

  /** When both engines succeed the text is the anonymizer's and the ledger
      lists, under each lower-cased type, exactly the texts the results
      span, each once; every supplementary type it adds is selected. */
  lemma SuccessLedger(matcher: Matcher, analyzer: Analyzer, anonymizer: Anonymizer,
                      text: string, selection: Option<seq<string>>)
    requires Sound(matcher) && !Text.IsBlank(text)
    requires var found := analyzer(text, Requested(Selected(selection)), Threshold);
      found.Some? &&
      anonymizer(text, found.value + Kept(Selected(selection), Supplementary(matcher, text)), Operators).Some?
    ensures var found := analyzer(text, Requested(Selected(selection)), Threshold).value;
      var results := found + Kept(Selected(selection), Supplementary(matcher, text));
      && PresidioSpec(matcher, analyzer, anonymizer, text, selection)
         == Some(Outcome(anonymizer(text, results, Operators).value, Collected(text, results)))
      && (forall r :: r in results[|found|..] ==> exists c :: Parse(r.entityType) == Some(c) && Name(c) in Selected(selection))
  {
    var names := Selected(selection);
    var found := analyzer(text, Requested(names), Threshold).value;
    var kept := Kept(names, Supplementary(matcher, text));
    assert PresidioSpec(matcher, analyzer, anonymizer, text, selection)
        == Attempt(matcher, analyzer, anonymizer, text, names);
    KeptSelected(names, Supplementary(matcher, text));
    assert (found + kept)[|found|..] == kept;
  }

  /** No outcome comes back exactly when the engines fail and the basic
      anonymizer it falls back to has no ADDRESS to select. */
  lemma PresidioFails(matcher: Matcher, analyzer: Analyzer, anonymizer: Anonymizer,
                      text: string, selection: Option<seq<string>>)
    requires Sound(matcher)
    ensures PresidioSpec(matcher, analyzer, anonymizer, text, selection).None? <==>
      && !Text.IsBlank(text)
      && Attempt(matcher, analyzer, anonymizer, text, Selected(selection)).None?
      && "ADDRESS" !in Selected(selection)
  {
    if !Text.IsBlank(text) {
      BasicFails(matcher, text, Some(Selected(selection)));
    }
  }

  /** When both engines succeed, the ledger is valid. */
  lemma AttemptLedger(matcher: Matcher, analyzer: Analyzer, anonymizer: Anonymizer,
                      text: string, names: seq<string>)
    requires Sound(matcher)
    requires Attempt(matcher, analyzer, anonymizer, text, names).Some?
    ensures Valid(Attempt(matcher, analyzer, anonymizer, text, names).value.ledger)
  {
    var found := analyzer(text, Requested(names), Threshold).value;
    CollectedValid(text, found + Kept(names, Supplementary(matcher, text)));
  }

  /** Whichever path is taken, a returned ledger is valid. */
  lemma PresidioLedger(matcher: Matcher, analyzer: Analyzer, anonymizer: Anonymizer,
                       text: string, selection: Option<seq<string>>)
    requires Sound(matcher)
    requires PresidioSpec(matcher, analyzer, anonymizer, text, selection).Some?
    ensures Valid(PresidioSpec(matcher, analyzer, anonymizer, text, selection).value.ledger)
  {
    var out := PresidioSpec(matcher, analyzer, anonymizer, text, selection);
    if !Text.IsBlank(text) {
      var names := Selected(selection);
      var attempt := Attempt(matcher, analyzer, anonymizer, text, names);
      if attempt.Some? {
        assert out == attempt;
        AttemptLedger(matcher, analyzer, anonymizer, text, names);
      } else {
        assert out == BasicSpec(matcher, text, Some(names));
        BasicValid(matcher, text, Some(names));
      }
    }
  }
}
