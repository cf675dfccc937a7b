/** The recognizer catalogue (`configure_resume_recognizers`): one
    recognizer per catalogue category, each binding its category to an
    ordered list of scored patterns and a list of context words. Scores are
    kept in hundredths (0.85 is 85). Selection runs the catalogue's branches
    in their fixed order and keeps those whose category is named. */
module Recognizers {
  import opened Optional
  import opened Matching
  import opened Patterns
  import opened Categories

  /** `Pattern(name=…, regex=…, score=…)`. */
  datatype PatternSpec = PatternSpec(name: string, regex: Regex, score: nat)

  /** `PatternRecognizer(supported_entity=…, patterns=…, context=…)`. */
  datatype Recognizer = Recognizer(entity: Category, patterns: seq<PatternSpec>, context: seq<string>)

  /** The scored patterns of each catalogue branch. */
  function CataloguePatterns(c: Category): seq<PatternSpec> {
    match c
    case PersonName => [
      PatternSpec("resume_name_pattern", NameRe, 70),
      PatternSpec("resume_name_with_middle_pattern", NameWithMiddleRe, 70),
      PatternSpec("father_name_pattern", FatherNameRe, 80)]
    case EmailAddress => [
      PatternSpec("resume_email_pattern", EmailRe, 90)]
    case PhoneNumber => [
      PatternSpec("resume_phone_pattern1", PhoneRe, 85),
      PatternSpec("resume_phone_pattern2", LabelledPhoneRe, 85)]
    case SocialMedia => [
      PatternSpec("linkedin_pattern", LinkedinRe, 85),
      PatternSpec("github_pattern", GithubRe, 85),
      PatternSpec("twitter_pattern", TwitterRe, 85),
      PatternSpec("facebook_pattern", FacebookRe, 85)]
    case DateOfBirth => [
      PatternSpec("dob_pattern1", DobNumericRe, 85),
      PatternSpec("dob_pattern2", DobYearFirstRe, 85),
      PatternSpec("dob_pattern3", DobMonthNameRe, 85)]
    case Gender => [
      PatternSpec("gender_pattern1", GenderLabelRe, 85),
      PatternSpec("gender_pattern2", GenderParenRe, 70),
      PatternSpec("gender_pattern3", GenderValueRe, 85)]
    case MaritalStatus => [
      PatternSpec("marital_status_pattern", MaritalRe, 85)]
    case Address => [
      PatternSpec("address_pattern1", StreetRe, 70),
      PatternSpec("address_pattern2", AddressLabelRe, 70),
      PatternSpec("address_pattern3", UnitAddressRe, 70)]
    case EducationDates => [
      PatternSpec("education_date_pattern1", MonthRangeRe, 75),
      PatternSpec("education_date_pattern2", YearToYearRe, 70),
      PatternSpec("education_date_pattern3", YearDashYearRe, 70),
      PatternSpec("education_date_pattern4", MonthYearRe, 60)]
    case WorkDates => [
      PatternSpec("work_date_pattern1", MonthRangeRe, 75),
      PatternSpec("work_date_pattern2", YearToYearOrPresentRe, 70),
      PatternSpec("work_date_pattern3", YearDashYearOrPresentRe, 70)]
    case CompanyName => [
      PatternSpec("company_name_pattern1", CompanyRe, 70),
      PatternSpec("company_name_pattern2", CompanyNameLabelRe, 80),
      PatternSpec("company_name_pattern3", EmployerRe, 80),
      PatternSpec("company_name_pattern4", WorkedAtRe, 70)]
    case SchoolName => [
      PatternSpec("school_name_pattern1", SchoolOfRe, 70),
      PatternSpec("school_name_pattern2", SchoolLabelRe, 70),
      PatternSpec("school_name_pattern3", SchoolSuffixRe, 70)]
    case Age => [
      PatternSpec("age_pattern1", AgeLabelRe, 80),
      PatternSpec("age_pattern2", YearsOldRe, 80),
      PatternSpec("age_pattern3", AgeRe, 80)]
    case _ => []
  }

  /** The context words of each catalogue branch; they are carried as
      data and never read by the engine itself. */
  function ContextWords(c: Category): seq<string> {
    match c
    case PersonName => ["name", "full name", "father", "mother"]
    case EmailAddress => ["email", "e-mail", "mail"]
    case PhoneNumber => ["phone", "mobile", "cell", "telephone", "contact"]
    case SocialMedia => ["profile", "social", "media", "link"]
    case DateOfBirth => ["birth", "born", "DOB"]
    case Gender => ["gender", "sex", "male", "female"]
    case MaritalStatus => ["marital", "married", "single", "divorced"]
    case Address => ["address", "location", "residence", "live"]
    case EducationDates => ["education", "university", "college", "school", "degree"]
    case WorkDates => ["experience", "work", "job", "company", "employment"]
    case CompanyName => ["company", "employer", "organization", "firm"]
    case SchoolName => ["education", "university", "college", "school", "institute"]
    case Age => ["age", "years old", "year old"]
    case _ => []
  }

  /** What a category's catalogue branch appends: its recognizer, or nothing
      for the five categories without a branch. */
  function RecognizerOf(c: Category): seq<Recognizer> {
    if HasBranch(c) then [Recognizer(c, CataloguePatterns(c), ContextWords(c))] else []
  }

  /** The recognizers the first `k` branches produce for `names`. */
  function Configured(k: nat, names: seq<string>): seq<Recognizer>
    requires k <= |CatalogueOrder|
  {
    Pick(k, names, RecognizerOf)
  }

  /** `configure_resume_recognizers(selected_types)`: nothing when the
      external library is unavailable; otherwise the catalogue's branches run
      in their written order and each whose category is selected appends its
      recognizer. */
  method ConfigureRecognizers(presidioAvailable: bool, selection: Option<seq<string>>)
    returns (recognizers: seq<Recognizer>)
    ensures !presidioAvailable ==> recognizers == []
    ensures presidioAvailable ==> recognizers == Configured(|CatalogueOrder|, Selected(selection))
  {
    if !presidioAvailable {
      return [];
    }
    var names := Selected(selection);
    recognizers := [];
    for k := 0 to |CatalogueOrder|
      invariant recognizers == Configured(k, names)
    {
      var c := CatalogueOrder[k];
      if Name(c) in names {
        RankOfOrder(k);
        recognizers := recognizers + [Recognizer(c, CataloguePatterns(c), ContextWords(c))];
      }
    }
  }

  /** A branch appends at most one recognizer, for its own category, and
      appends one exactly when the category has a branch. */
  lemma RecognizerOfKeyed()
    ensures forall c, x :: x in RecognizerOf(c) ==> x.entity == c
    ensures forall c :: |RecognizerOf(c)| <= 1
    ensures forall c :: |RecognizerOf(c)| > 0 <==> HasBranch(c)
  {
  }

  /** Exactly one recognizer per selected category that has a branch: every
      recognizer is its category's catalogue recognizer and that category is
      selected; categories strictly increase in catalogue order (so none
      repeats); and every selected category with a branch is present. */
  lemma ConfiguredExactlyOnce(k: nat, names: seq<string>)
    requires k <= |CatalogueOrder|
    ensures var rs := Configured(k, names);
      && (forall i :: 0 <= i < |rs| ==>
            RecognizerOf(rs[i].entity) == [rs[i]] && Name(rs[i].entity) in names && Rank(rs[i].entity) < k)
      && (forall i, j :: 0 <= i < j < |rs| ==> Rank(rs[i].entity) < Rank(rs[j].entity))
      && (forall c :: HasBranch(c) && Rank(c) < k && Name(c) in names ==>
            exists i :: 0 <= i < |rs| && rs[i].entity == c)
  {
    var rs := Configured(k, names);
    var key := (r: Recognizer) => r.entity;
    RecognizerOfKeyed();
    PickRanked(k, names, RecognizerOf, key);
    PickAscending(k, names, RecognizerOf, key);
    PickComplete(k, names, RecognizerOf, key);
    forall i | 0 <= i < |rs|
      ensures RecognizerOf(rs[i].entity) == [rs[i]]
    {
      var block := RecognizerOf(rs[i].entity);
      assert rs[i] in block && |block| == 1;
    }
  }

  /** With no selection (every category), all thirteen recognizers are
      configured, one per branch, in catalogue order. */
  lemma AllTypesGiveWholeCatalogue()
    ensures var rs := Configured(|CatalogueOrder|, AllNames());
      && |rs| == |CatalogueOrder|
      && forall i :: 0 <= i < |rs| ==> rs[i].entity == CatalogueOrder[i]
  {
    PickAll(|CatalogueOrder|, RecognizerOf);
    BlocksAreTheCatalogue(|CatalogueOrder|);
  }

  lemma {:induction false} BlocksAreTheCatalogue(k: nat)
    requires k <= |CatalogueOrder|
    ensures var bs := Blocks(k, RecognizerOf);
      && |bs| == k
      && forall i :: 0 <= i < k ==> bs[i].entity == CatalogueOrder[i]
  {
    if k > 0 {
      BlocksAreTheCatalogue(k - 1);
      var c := CatalogueOrder[k - 1];
      RankOfOrder(k - 1);
      assert RecognizerOf(c) == [Recognizer(c, CataloguePatterns(c), ContextWords(c))];
      assert Blocks(k, RecognizerOf) == Blocks(k - 1, RecognizerOf) + RecognizerOf(c);
    }
  }

  /** Names that are not category keys select nothing and change nothing. */
  lemma UnknownNamesIgnored(names: seq<string>, unknown: seq<string>)
    requires forall s :: s in unknown ==> Parse(s).None?
    ensures Configured(|CatalogueOrder|, names + unknown) == Configured(|CatalogueOrder|, names)
  {
    PickIgnoresUnknown(|CatalogueOrder|, names, unknown, RecognizerOf);
  }

  /** Naming only categories without a branch (FAMILY_INFO, PHOTO_REFERENCES,
      NATIONALITY, RELIGION, LOCATION) configures no recognizer. */
  lemma BranchlessSelectionIsEmpty(names: seq<string>)
    requires forall s :: s in names ==> Parse(s).None? || !HasBranch(Parse(s).value)
    ensures Configured(|CatalogueOrder|, names) == []
  {
    ConfiguredExactlyOnce(|CatalogueOrder|, names);
    var rs := Configured(|CatalogueOrder|, names);
    if |rs| > 0 {
      var c := rs[0].entity;
      ParseName(c);
    }
  }
}
