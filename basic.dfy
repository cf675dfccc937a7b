/** The regular-expression anonymizer (`basic_anonymize_text`), used when
    the external engine is unavailable or fails. It builds an ordered list of
    rules from the selected categories, then runs each rule over the text as
    it stands at that point: every match records its entity text in the
    ledger and then rewrites, with `str.replace`, every occurrence of the
    matched segment anywhere in the text, not only the matched offsets.

    The source nests everything after the ADDRESS block (the remaining
    rule blocks, the rewriting loop and the `return`) inside the ADDRESS
    branch, so a selection without "ADDRESS" makes the function return
    `None` without touching the text; the model keeps that behaviour. */
module Basic {
  import opened Optional
  import opened Matching
  import opened Patterns
  import opened Categories
  import opened Ledger
  import Text

  /** What a match is rewritten to: a fixed string replacing the whole
      segment, or the segment with its first group replaced by a
      placeholder (`m.group().replace(m.group(1), placeholder)`). */
  datatype Replacement = Fixed(text: string) | InGroup(placeholder: string)

  /** `(pattern, entity_type, replacement)`. */
  datatype Rule = Rule(regex: Regex, category: Category, replacement: Replacement)

  /** The anonymized text and the ledger of what was found. */
  datatype Outcome = Outcome(text: string, ledger: Ledger)

  /** A category's block: each (pattern, replacement) pair becomes a rule
      recording under that category. */
  function Block(c: Category, parts: seq<(Regex, Replacement)>): (rs: seq<Rule>)
    ensures |rs| == |parts|
    ensures forall r :: r in rs ==> r.category == c
  {
    seq(|parts|, k requires 0 <= k < |parts| => Rule(parts[k].0, c, parts[k].1))
  }

  /** The rules each category's block appends, in their written order. */
  function RulesFor(c: Category): seq<Rule> {
    match c
    case PersonName => Block(c, [
      (NameRe, Fixed("<NAME>")),
      (FatherNameRe, Fixed("Father's Name: <NAME>")),
      (MotherNameRe, Fixed("Mother's Name: <NAME>"))])
    case EmailAddress => Block(c, [
      (EmailRe, Fixed("<EMAIL>"))])
    case PhoneNumber => Block(c, [
      (PhoneRe, Fixed("<PHONE>")),
      (LabelledPhoneRe, InGroup("<PHONE>"))])
    case SocialMedia => Block(c, [
      (LinkedinRe, Fixed("<LINKEDIN>")),
      (GithubRe, Fixed("<GITHUB>")),
      (TwitterRe, Fixed("<TWITTER>")),
      (FacebookRe, Fixed("<FACEBOOK>"))])
    case DateOfBirth => Block(c, [
      (DobNumericRe, InGroup("<DOB>")),
      (DobYearFirstRe, InGroup("<DOB>")),
      (DobMonthNameRe, InGroup("<DOB>"))])
    case Gender => Block(c, [
      (GenderLabelRe, InGroup("<GENDER>")),
      (GenderParenRe, Fixed("(<GENDER>)")),
      (GenderValueRe, InGroup("<GENDER>"))])
    case MaritalStatus => Block(c, [
      (MaritalRe, InGroup("<MARITAL_STATUS>"))])
    case Address => Block(c, [
      (StreetRe, Fixed("<ADDRESS>")),
      (AddressLabelRe, InGroup("<ADDRESS>")),
      (UnitAddressRe, Fixed("<ADDRESS>"))])
    case EducationDates => Block(c, [
      (MonthRangeRe, Fixed("<EDUCATION_DATES>")),
      (YearToYearRe, Fixed("<EDUCATION_DATES>")),
      (YearDashYearRe, Fixed("<EDUCATION_DATES>")),
      (MonthYearRe, Fixed("<DATE>"))])
    case WorkDates => Block(c, [
      (MonthRangeRe, Fixed("<WORK_DATES>")),
      (YearToYearOrPresentRe, Fixed("<WORK_DATES>")),
      (YearDashYearOrPresentRe, Fixed("<WORK_DATES>"))])
    case CompanyName => Block(c, [
      (CompanyRe, InGroup("<COMPANY>")),
      (CompanyNameLabelRe, InGroup("<COMPANY>")),
      (EmployerRe, InGroup("<COMPANY>")),
      (WorkedAtRe, InGroup("<COMPANY>"))])
    case SchoolName => Block(c, [
      (SchoolOfRe, InGroup("<SCHOOL>")),
      (SchoolLabelRe, InGroup("<SCHOOL>")),
      (SchoolSuffixRe, Fixed("<SCHOOL>"))])
    case Age => Block(c, [
      (AgeLabelRe, InGroup("<AGE>")),
      (YearsOldRe, InGroup("<AGE>")),
      (AgeRe, InGroup("<AGE>"))])
    case _ => []
  }

  /** The rule list for a selection: the blocks of the selected categories
      in catalogue order. */
  function Rules(names: seq<string>): seq<Rule> {
    Pick(|CatalogueOrder|, names, RulesFor)
  }

  /** The text a match records: its first group when the pattern has
      groups, otherwise the whole match. */
  function EntityText(rule: Rule, snapshot: string, m: Match): string
    requires MatchFits(m, rule.regex, snapshot)
  {
    if Captures(rule.regex) > 0 then GroupText(m, 1, snapshot) else WholeText(m, snapshot)
  }

  /** What the matched segment is rewritten to. */
  function Replaced(rule: Rule, snapshot: string, m: Match): string
    requires MatchFits(m, rule.regex, snapshot)
  {
    match rule.replacement
    case Fixed(s) => s
    case InGroup(p) => Text.ReplaceAll(WholeText(m, snapshot), EntityText(rule, snapshot, m), p)
  }

  /** One match of `rule`, found in `snapshot` (the text when the rule
      started), applied to the current outcome: record its entity text, then
      replace every occurrence of its segment in the current text. */
  function ApplyMatch(rule: Rule, snapshot: string, m: Match, o: Outcome): Outcome
    requires MatchFits(m, rule.regex, snapshot)
  {
    Outcome(
      Text.ReplaceAll(o.text, WholeText(m, snapshot), Replaced(rule, snapshot, m)),
      Record(o.ledger, Key(rule.category), EntityText(rule, snapshot, m)))
  }

  /** The matches of one rule applied in order. */
  function ApplyMatches(rule: Rule, snapshot: string, ms: seq<Match>, o: Outcome): Outcome
    requires forall k :: 0 <= k < |ms| ==> MatchFits(ms[k], rule.regex, snapshot)
    decreases |ms|
  {
    if |ms| == 0 then o
    else ApplyMatches(rule, snapshot, ms[1..], ApplyMatch(rule, snapshot, ms[0], o))
  }

  /** The rules applied in order, each to the text its predecessors left. */
  function ApplyRules(matcher: Matcher, rules: seq<Rule>, o: Outcome): Outcome
    requires Sound(matcher)
    decreases |rules|
  {
    if |rules| == 0 then o
    else
      var rule := rules[0];
      ApplyRules(matcher, rules[1..], ApplyMatches(rule, o.text, matcher(rule.regex, o.text), o))
  }

  /** The whole function: a blank text is returned as is with an empty
      ledger; a selection without "ADDRESS" yields `None`; otherwise the
      selected rules run over the text from an empty ledger. */
  function BasicSpec(matcher: Matcher, text: string, selection: Option<seq<string>>): Option<Outcome>
    requires Sound(matcher)
  {
    if Text.IsBlank(text) then Some(Outcome(text, map[]))
    else
      var names := Selected(selection);
      if Name(Address) !in names then None
      else Some(ApplyRules(matcher, Rules(names), Outcome(text, map[])))
  }

  /** `basic_anonymize_text(text, selected_types)`. */
  method BasicAnonymize(matcher: Matcher, text: string, selection: Option<seq<string>>)
    returns (out: Option<Outcome>)
    requires Sound(matcher)
    ensures out == BasicSpec(matcher, text, selection)
    ensures out.None? <==> !Text.IsBlank(text) && "ADDRESS" !in Selected(selection)
  {
    if Text.IsBlank(text) {
      return Some(Outcome(text, map[]));
    }
    var patterns := BuildRules(Selected(selection));
    if patterns.None? {
      return None;
    }
    var o := ApplyAll(matcher, patterns.value, text);
    return Some(o);
  }

  /** The rule-list construction: the blocks up to ADDRESS, then, only
      inside the ADDRESS branch, the ADDRESS block and the remaining ones.
      Without "ADDRESS" the construction stops and nothing is returned. */
  method BuildRules(names: seq<string>) returns (patterns: Option<seq<Rule>>)
    ensures patterns.None? <==> "ADDRESS" !in names
    ensures patterns.Some? ==> patterns.value == Rules(names)
  {
    var built: seq<Rule> := [];
    for k := 0 to Rank(Address)
      invariant built == Pick(k, names, RulesFor)
    {
      var c := CatalogueOrder[k];
      if Name(c) in names {
        built := built + RulesFor(c);
      }
    }
    if "ADDRESS" !in names {
      return None;
    }
    built := built + RulesFor(Address);
    for k := Rank(Address) + 1 to |CatalogueOrder|
      invariant built == Pick(k, names, RulesFor)
    {
      var c := CatalogueOrder[k];
      if Name(c) in names {
        built := built + RulesFor(c);
      }
    }
    return Some(built);
  }

  /** The rewriting loop: every rule in order, each over the matches it
      finds in the text as the earlier rules left it. */
  method ApplyAll(matcher: Matcher, patterns: seq<Rule>, text: string) returns (o: Outcome)
    requires Sound(matcher)
    ensures o == ApplyRules(matcher, patterns, Outcome(text, map[]))
  {
    var anonymized := text;
    var ledger: Ledger := map[];
    for i := 0 to |patterns|
      invariant ApplyRules(matcher, patterns[i..], Outcome(anonymized, ledger))
             == ApplyRules(matcher, patterns, Outcome(text, map[]))
    {
      var rule := patterns[i];
      var ms := matcher(rule.regex, anonymized);
      assert patterns[i..][1..] == patterns[i + 1..];
      anonymized, ledger := ApplyRuleMatches(rule, anonymized, ms, ledger);
    }
    o := Outcome(anonymized, ledger);
  }

  /** One rule's inner loop over the matches found in `snapshot`: record the
      entity text if it is not yet listed, then rewrite every occurrence of
      the segment in the current text. */
  method ApplyRuleMatches(rule: Rule, snapshot: string, ms: seq<Match>, start: Ledger)
    returns (anonymized: string, ledger: Ledger)
    requires forall k :: 0 <= k < |ms| ==> MatchFits(ms[k], rule.regex, snapshot)
    ensures Outcome(anonymized, ledger) == ApplyMatches(rule, snapshot, ms, Outcome(snapshot, start))
  {
    anonymized, ledger := snapshot, start;
    for j := 0 to |ms|
      invariant ApplyMatches(rule, snapshot, ms[j..], Outcome(anonymized, ledger))
             == ApplyMatches(rule, snapshot, ms, Outcome(snapshot, start))
    {
      var m := ms[j];
      var entity := if Captures(rule.regex) > 0 then GroupText(m, 1, snapshot) else WholeText(m, snapshot);
      var key := Key(rule.category);
      var listed := if key in ledger then ledger[key] else [];
      if entity !in listed {
        ledger := ledger[key := listed + [entity]];
      }
      var segment := WholeText(m, snapshot);
      var replaced := match rule.replacement
        case Fixed(s) => s
        case InGroup(p) => Text.ReplaceAll(segment, entity, p);
      anonymized := Text.ReplaceAll(anonymized, segment, replaced);
      assert ms[j..][1..] == ms[j + 1..];
    }
  }

  /** Every rule of a block belongs to that block's category. */
  lemma RuleCategory(c: Category)
    ensures forall r :: r in RulesFor(c) ==> r.category == c
  {
  }

  /** Exactly the thirteen catalogue categories have a block. */
  lemma RuleBlockIffBranch(c: Category)
    ensures |RulesFor(c)| > 0 <==> HasBranch(c)
  {
  }

  /** A rule is in the list exactly when its category is selected. */
  lemma RulesOfSelection(names: seq<string>, r: Rule)
    ensures r in Rules(names) <==> Name(r.category) in names && r in RulesFor(r.category)
  {
    PickMembership(|CatalogueOrder|, names, RulesFor, r);
    if r in Rules(names) {
      var j :| 0 <= j < |CatalogueOrder| && Name(CatalogueOrder[j]) in names && r in RulesFor(CatalogueOrder[j]);
      RuleCategory(CatalogueOrder[j]);
    }
    if Name(r.category) in names && r in RulesFor(r.category) {
      RuleBlockIffBranch(r.category);
      assert CatalogueOrder[Rank(r.category)] == r.category;
    }
  }

  /** The entity texts of a rule's matches, in match order. */
  function Entities(rule: Rule, snapshot: string, ms: seq<Match>): (es: seq<string>)
    requires forall k :: 0 <= k < |ms| ==> MatchFits(ms[k], rule.regex, snapshot)
    ensures |es| == |ms|
    ensures forall k :: 0 <= k < |ms| ==> es[k] == EntityText(rule, snapshot, ms[k])
  {
    seq(|ms|, k requires 0 <= k < |ms| => EntityText(rule, snapshot, ms[k]))
  }

  /** A rule's matches change the ledger exactly as recording their entity
      texts one after another under the rule's key. */
  lemma {:induction false} ApplyMatchesLedger(rule: Rule, snapshot: string, ms: seq<Match>, o: Outcome)
    requires forall k :: 0 <= k < |ms| ==> MatchFits(ms[k], rule.regex, snapshot)
    ensures ApplyMatches(rule, snapshot, ms, o).ledger
         == RecordEach(o.ledger, Key(rule.category), Entities(rule, snapshot, ms))
    decreases |ms|
  {
    if |ms| > 0 {
      ApplyMatchesLedger(rule, snapshot, ms[1..], ApplyMatch(rule, snapshot, ms[0], o));
      assert Entities(rule, snapshot, ms)[1..] == Entities(rule, snapshot, ms[1..]);
    }
  }

  /** Under the rule's key the ledger lists what it listed before followed
      by the new entity texts, each once, in the order first seen. */
  lemma RuleRecordsFirstSeen(rule: Rule, snapshot: string, ms: seq<Match>, o: Outcome)
    requires forall k :: 0 <= k < |ms| ==> MatchFits(ms[k], rule.regex, snapshot)
    requires Valid(o.ledger)
    ensures var key := Key(rule.category);
      var r := ApplyMatches(rule, snapshot, ms, o).ledger;
      (key in r <==> key in o.ledger || |ms| > 0) &&
      (key in r ==> r[key] == Dedup((if key in o.ledger then o.ledger[key] else []) + Entities(rule, snapshot, ms)))
  {
    ApplyMatchesLedger(rule, snapshot, ms, o);
    RecordEachIsDedup(o.ledger, Key(rule.category), Entities(rule, snapshot, ms));
  }

  /** A rule's matches add the rule's key when there is at least one match
      and leave every other key as it was. */
  lemma {:induction false} ApplyMatchesKeys(rule: Rule, snapshot: string, ms: seq<Match>, o: Outcome)
    requires forall k :: 0 <= k < |ms| ==> MatchFits(ms[k], rule.regex, snapshot)
    ensures var r := ApplyMatches(rule, snapshot, ms, o).ledger;
      && (forall k :: k in r <==> k in o.ledger || (|ms| > 0 && k == Key(rule.category)))
      && (forall k :: k in o.ledger && k != Key(rule.category) ==> r[k] == o.ledger[k])
    decreases |ms|
  {
    if |ms| > 0 {
      ApplyMatchesKeys(rule, snapshot, ms[1..], ApplyMatch(rule, snapshot, ms[0], o));
    }
  }

  /** Applying matches keeps every list non-empty and duplicate-free. */
  lemma {:induction false} ApplyMatchesValid(rule: Rule, snapshot: string, ms: seq<Match>, o: Outcome)
    requires forall k :: 0 <= k < |ms| ==> MatchFits(ms[k], rule.regex, snapshot)
    requires Valid(o.ledger)
    ensures Valid(ApplyMatches(rule, snapshot, ms, o).ledger)
    decreases |ms|
  {
    if |ms| > 0 {
      RecordValid(o.ledger, Key(rule.category), EntityText(rule, snapshot, ms[0]));
      ApplyMatchesValid(rule, snapshot, ms[1..], ApplyMatch(rule, snapshot, ms[0], o));
    }
  }

  /** Applying rules keeps every list non-empty and duplicate-free. */
  lemma {:induction false} ApplyRulesValid(matcher: Matcher, rules: seq<Rule>, o: Outcome)
    requires Sound(matcher) && Valid(o.ledger)
    ensures Valid(ApplyRules(matcher, rules, o).ledger)
    decreases |rules|
  {
    if |rules| > 0 {
      var rule := rules[0];
      var ms := matcher(rule.regex, o.text);
      ApplyMatchesValid(rule, o.text, ms, o);
      ApplyRulesValid(matcher, rules[1..], ApplyMatches(rule, o.text, ms, o));
    }
  }

  /** Every key the rules add is the key of one of them. */
  lemma {:induction false} ApplyRulesKeys(matcher: Matcher, rules: seq<Rule>, o: Outcome)
    requires Sound(matcher)
    ensures forall k :: k in ApplyRules(matcher, rules, o).ledger ==>
      k in o.ledger || exists r :: r in rules && k == Key(r.category)
    decreases |rules|
  {
    if |rules| > 0 {
      var rule := rules[0];
      var ms := matcher(rule.regex, o.text);
      ApplyMatchesKeys(rule, o.text, ms, o);
      ApplyRulesKeys(matcher, rules[1..], ApplyMatches(rule, o.text, ms, o));
      forall k | k in ApplyRules(matcher, rules, o).ledger
        ensures k in o.ledger || exists r :: r in rules && k == Key(r.category)
      {
        if k !in o.ledger && k != Key(rule.category) {
          var r :| r in rules[1..] && k == Key(r.category);
          assert r in rules;
        }
      }
    }
  }

  /** A match rewrites every occurrence of its segment in the current
      text: the text is cut at each occurrence and the pieces are rejoined
      around the replacement. */
  lemma ApplyMatchRewritesEverywhere(rule: Rule, snapshot: string, m: Match, o: Outcome)
    requires MatchFits(m, rule.regex, snapshot) && |WholeText(m, snapshot)| > 0
    ensures ApplyMatch(rule, snapshot, m, o).text
         == Text.Join(Text.Split(o.text, WholeText(m, snapshot)), Replaced(rule, snapshot, m))
  {
    Text.ReplaceAllIsJoinOfSplit(o.text, WholeText(m, snapshot), Replaced(rule, snapshot, m));
  }

  /** A match whose segment no longer occurs in the current text (an
      earlier rewrite removed it) records its entity but leaves the text
      unchanged. */
  lemma StaleMatchKeepsText(rule: Rule, snapshot: string, m: Match, o: Outcome)
    requires MatchFits(m, rule.regex, snapshot) && |WholeText(m, snapshot)| > 0
    requires !Text.Occurs(WholeText(m, snapshot), o.text)
    ensures ApplyMatch(rule, snapshot, m, o).text == o.text
  {
    Text.ReplaceAllAbsent(o.text, WholeText(m, snapshot), Replaced(rule, snapshot, m));
  }

  /** Rules that find nothing leave the text and the ledger as they were. */
  lemma {:induction false} ApplyRulesNoMatch(matcher: Matcher, rules: seq<Rule>, o: Outcome)
    requires Sound(matcher)
    requires forall r :: r in rules ==> matcher(r.regex, o.text) == []
    ensures ApplyRules(matcher, rules, o) == o
    decreases |rules|
  {
    if |rules| > 0 {
      assert rules[0] in rules;
      ApplyRulesNoMatch(matcher, rules[1..], o);
    }
  }

  /** Rules run in list order, each on the outcome of the ones before. */
  lemma {:induction false} ApplyRulesAppend(matcher: Matcher, r1: seq<Rule>, r2: seq<Rule>, o: Outcome)
    requires Sound(matcher)
    ensures ApplyRules(matcher, r1 + r2, o) == ApplyRules(matcher, r2, ApplyRules(matcher, r1, o))
    decreases |r1|
  {
    if |r1| == 0 {
      assert r1 + r2 == r2;
    } else {
      var rule := r1[0];
      var o1 := ApplyMatches(rule, o.text, matcher(rule.regex, o.text), o);
      assert (r1 + r2)[0] == rule && (r1 + r2)[1..] == r1[1..] + r2;
      assert ApplyRules(matcher, r1 + r2, o) == ApplyRules(matcher, r1[1..] + r2, o1);
      assert ApplyRules(matcher, r1, o) == ApplyRules(matcher, r1[1..], o1);
      ApplyRulesAppend(matcher, r1[1..], r2, o1);
    }
  }

  /** The default selection names ADDRESS, so the rules always run. */
  lemma DefaultSelectionRuns(matcher: Matcher, text: string)
    requires Sound(matcher)
    ensures BasicSpec(matcher, text, None).Some?
  {
  }

  /** No outcome comes back exactly when the text is not blank and the
      selection lacks ADDRESS. */
  lemma BasicFails(matcher: Matcher, text: string, selection: Option<seq<string>>)
    requires Sound(matcher)
    ensures BasicSpec(matcher, text, selection).None? <==> !Text.IsBlank(text) && "ADDRESS" !in Selected(selection)
  {
  }

  /** The returned ledger has only non-empty duplicate-free lists. */
  lemma BasicValid(matcher: Matcher, text: string, selection: Option<seq<string>>)
    requires Sound(matcher) && BasicSpec(matcher, text, selection).Some?
    ensures Valid(BasicSpec(matcher, text, selection).value.ledger)
  {
    if !Text.IsBlank(text) {
      ApplyRulesValid(matcher, Rules(Selected(selection)), Outcome(text, map[]));
    }
  }

  /** The returned ledger has only non-empty duplicate-free lists, each
      under the lower-cased key of a selected catalogue category. */
  lemma BasicLedger(matcher: Matcher, text: string, selection: Option<seq<string>>)
    requires Sound(matcher) && BasicSpec(matcher, text, selection).Some?
    ensures var l := BasicSpec(matcher, text, selection).value.ledger;
      && Valid(l)
      && forall k :: k in l ==> exists c :: HasBranch(c) && Name(c) in Selected(selection) && k == Key(c)
  {
    if !Text.IsBlank(text) {
      var names := Selected(selection);
      var o := Outcome(text, map[]);
      ApplyRulesValid(matcher, Rules(names), o);
      ApplyRulesKeys(matcher, Rules(names), o);
      forall k | k in BasicSpec(matcher, text, selection).value.ledger
        ensures exists c :: HasBranch(c) && Name(c) in names && k == Key(c)
      {
        var r :| r in Rules(names) && k == Key(r.category);
        RulesOfSelection(names, r);
        RuleBlockIffBranch(r.category);
      }
    }
  }

  /** When no selected rule matches the text, the text comes back
      unchanged with an empty ledger. */
  lemma BasicNoMatch(matcher: Matcher, text: string, selection: Option<seq<string>>)
    requires Sound(matcher) && "ADDRESS" in Selected(selection)
    requires forall r :: r in Rules(Selected(selection)) ==> matcher(r.regex, text) == []
    ensures BasicSpec(matcher, text, selection) == Some(Outcome(text, map[]))
  {
    ApplyRulesNoMatch(matcher, Rules(Selected(selection)), Outcome(text, map[]));
  }
}
