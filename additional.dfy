/** The supplementary extractor (`extract_additional_pii`): five first-match
    searches for items the recognizer catalogue misses, each producing
    candidates that carry their entity type, their character offsets in the
    document, a fixed score (in hundredths) and the text found. The combined
    date-of-birth-and-gender search produces two candidates. */
module Additional {
  import opened Optional
  import opened Matching
  import opened Patterns
  import opened Categories
  import Text

  datatype Candidate = Candidate(entityType: Category, start: nat, end: nat, score: nat, text: string)

  /** The five searches, in the order they run. */
  datatype Probe = DobGender | Family | Marital | NationalityProbe | Photo

  function ProbeRe(p: Probe): Regex {
    match p
    case DobGender => DobGenderRe
    case Family => FamilyRe
    case Marital => MaritalStatusRe
    case NationalityProbe => NationalityRe
    case Photo => PhotoRe
  }

  /** The position of a candidate's entity type in the output: the six
      types the extractor emits come in this order; any other type is 6. */
  function Slot(c: Category): (n: nat)
    ensures n <= 6
  {
    match c
    case DateOfBirth => 0
    case Gender => 1
    case FamilyInfo => 2
    case MaritalStatus => 3
    case Nationality => 4
    case PhotoReferences => 5
    case _ => 6
  }

  /** The search that produces candidates of an emitted type. */
  function ProbeOf(c: Category): Probe
    requires Slot(c) < 6
  {
    match c
    case DateOfBirth => DobGender
    case Gender => DobGender
    case FamilyInfo => Family
    case MaritalStatus => Marital
    case Nationality => NationalityProbe
    case PhotoReferences => Photo
  }

  /** The capture group a type's text comes from. */
  function GroupOf(c: Category): nat {
    if c == Gender then 2 else 1
  }

  /** The fixed scores, in hundredths: 0.9, 0.85 and 0.8. */
  function ScoreOf(c: Category): nat {
    match c
    case DateOfBirth => 90
    case Gender => 90
    case PhotoReferences => 80
    case _ => 85
  }

  /** Only the two parts of the combined match are used unstripped. */
  predicate Stripped(c: Category) {
    c != DateOfBirth && c != Gender
  }

  /** The candidate of type `c` built from the match `m`: it starts where
      the type's group starts, its text is that group's text (stripped of
      surrounding whitespace for the single-item searches), and it is as
      long as that text. */
  function FromGroup(c: Category, m: Match, t: string): Candidate
    requires 1 <= GroupOf(c) <= |m.groups|
    requires m.groups[GroupOf(c) - 1].start <= m.groups[GroupOf(c) - 1].end <= |t|
  {
    var g := GroupText(m, GroupOf(c), t);
    var found := if Stripped(c) then Text.Strip(g) else g;
    var start := m.groups[GroupOf(c) - 1].start;
    Candidate(c, start, start + |found|, ScoreOf(c), found)
  }

  /** The types a search serves, in the order it emits them. */
  function Serves(p: Probe): (cs: seq<Category>)
    ensures |cs| > 0
  {
    match p
    case DobGender => [DateOfBirth, Gender]
    case Family => [FamilyInfo]
    case Marital => [MaritalStatus]
    case NationalityProbe => [Nationality]
    case Photo => [PhotoReferences]
  }

  /** The order in which the searches run. */
  const Probes: seq<Probe> := [DobGender, Family, Marital, NationalityProbe, Photo]

  /** The candidates search `p` contributes: none when its pattern does not
      occur, otherwise one per type it serves, built from its first match. */
  function Found(matcher: Matcher, p: Probe, t: string): seq<Candidate>
    requires Sound(matcher)
  {
    match Search(matcher, ProbeRe(p), t)
    case None => []
    case Some(m) =>
      if p == DobGender then [FromGroup(DateOfBirth, m, t), FromGroup(Gender, m, t)]
      else [FromGroup(Serves(p)[0], m, t)]
  }

  /** The candidates of the first `k` searches, in order. */
  function Gathered(matcher: Matcher, t: string, k: nat): seq<Candidate>
    requires Sound(matcher) && k <= |Probes|
  {
    if k == 0 then [] else Gathered(matcher, t, k - 1) + Found(matcher, Probes[k - 1], t)
  }

  /** `extract_additional_pii(text)`: the five searches run in order, each
      appending the candidates of its first match. */
  method ExtractAdditionalPii(matcher: Matcher, text: string) returns (results: seq<Candidate>)
    requires Sound(matcher)
    ensures results == Gathered(matcher, text, |Probes|)
  {
    results := [];
    for k := 0 to |Probes|
      invariant results == Gathered(matcher, text, k)
    {
      results := results + Found(matcher, Probes[k], text);
    }
  }

  /** Every candidate lies inside the document, spans exactly its text,
      carries its type's fixed score, and its group match: it starts at the
      group's start and its text is the group's (stripped) text. */
  predicate WellPlaced(matcher: Matcher, t: string, c: Candidate)
    requires Sound(matcher)
  {
    && Slot(c.entityType) < 6
    && c.start <= c.end <= |t|
    && c.end - c.start == |c.text|
    && c.score == ScoreOf(c.entityType)
    && var found := Search(matcher, ProbeRe(ProbeOf(c.entityType)), t);
       && found.Some?
       && GroupOf(c.entityType) <= |found.value.groups|
       && c == FromGroup(c.entityType, found.value, t)
  }

  /** The candidates of all five searches. */
  function Supplementary(matcher: Matcher, t: string): seq<Candidate>
    requires Sound(matcher)
  {
    Gathered(matcher, t, |Probes|)
  }

  /** The position of a search in the running order. */
  function ProbeIndex(p: Probe): (i: nat)
    ensures i < |Probes| && Probes[i] == p
  {
    match p
    case DobGender => 0
    case Family => 1
    case Marital => 2
    case NationalityProbe => 3
    case Photo => 4
  }

  /** The types of each search occupy consecutive slots, after those of
      the searches that run before it. */
  lemma ServesSlots(p: Probe)
    ensures forall i :: 0 <= i < |Serves(p)| ==>
      && Slot(Serves(p)[i]) == ProbeIndex(p) + (if p == DobGender then i else 1)
      && ProbeOf(Serves(p)[i]) == p
  {
  }

  /** Output slots follow the running order of the searches. */
  lemma SlotFollowsProbe(c: Category)
    requires Slot(c) < 6
    ensures Slot(c) == ProbeIndex(ProbeOf(c)) + (if c == DateOfBirth then 0 else 1)
    ensures c in Serves(ProbeOf(c))
  {
  }

  /** The pattern of each search declares the group its types read. */
  lemma GroupDeclared(c: Category)
    requires Slot(c) < 6
    ensures 1 <= GroupOf(c) <= Captures(ProbeRe(ProbeOf(c)))
  {
  }

  /** A candidate built from a group lies inside the document and spans
      exactly its text. */
  lemma FromGroupFits(c: Category, m: Match, t: string)
    requires 1 <= GroupOf(c) <= |m.groups|
    requires m.groups[GroupOf(c) - 1].start <= m.groups[GroupOf(c) - 1].end <= |t|
    ensures var x := FromGroup(c, m, t);
      && x.entityType == c && x.score == ScoreOf(c)
      && x.start <= x.end <= |t| && x.end - x.start == |x.text|
  {
    var g := m.groups[GroupOf(c) - 1];
    assert |FromGroup(c, m, t).text| <= |GroupText(m, GroupOf(c), t)| == g.end - g.start;
  }

  /** The candidate a type's search builds from its first match is well
      placed. */
  lemma FromGroupPlaced(matcher: Matcher, c: Category, t: string)
    requires Sound(matcher) && Slot(c) < 6
    requires Search(matcher, ProbeRe(ProbeOf(c)), t).Some?
    ensures var m := Search(matcher, ProbeRe(ProbeOf(c)), t).value;
      GroupOf(c) <= |m.groups| && WellPlaced(matcher, t, FromGroup(c, m, t))
  {
    var m := Search(matcher, ProbeRe(ProbeOf(c)), t).value;
    GroupDeclared(c);
    FromGroupFits(c, m, t);
  }

  /** One search contributes nothing when its pattern does not occur and
      otherwise one candidate per type it serves, in that order. */
  lemma FoundTypes(matcher: Matcher, p: Probe, t: string)
    requires Sound(matcher)
    ensures var cs := Found(matcher, p, t);
      && |cs| == (if matcher(ProbeRe(p), t) == [] then 0 else |Serves(p)|)
      && (forall i :: 0 <= i < |cs| ==> cs[i].entityType == Serves(p)[i])
  {
  }

  /** Every candidate one search contributes is well placed. */
  lemma FoundPlaced(matcher: Matcher, p: Probe, t: string)
    requires Sound(matcher)
    ensures forall c :: c in Found(matcher, p, t) ==> WellPlaced(matcher, t, c)
  {
    var cs := Found(matcher, p, t);
    FoundTypes(matcher, p, t);
    ServesSlots(p);
    forall i | 0 <= i < |cs| ensures WellPlaced(matcher, t, cs[i]) {
      FromGroupPlaced(matcher, cs[i].entityType, t);
    }
  }

  /** The running order lists each search at its position. */
  lemma ProbeIndexOfOrder(i: nat)
    requires i < |Probes|
    ensures ProbeIndex(Probes[i]) == i
  {
    if i == 0 {} else if i == 1 {} else if i == 2 {} else if i == 3 {} else {}
  }

  /** The slots one search's candidates occupy: the combined search fills
      the first two, every other search the one after its position. */
  lemma FoundSlots(matcher: Matcher, p: Probe, t: string)
    requires Sound(matcher)
    ensures var cs := Found(matcher, p, t);
      && |cs| <= (if p == DobGender then 2 else 1)
      && (forall i :: 0 <= i < |cs| ==>
            Slot(cs[i].entityType) == ProbeIndex(p) + (if p == DobGender then i else 1))
      && Ascending(cs)
  {
    FoundTypes(matcher, p, t);
    ServesSlots(p);
  }

  /** The first `k` searches give at most `k + 1` candidates, none for no
      search, with slots at most `k`. */
  lemma {:induction false} GatheredBound(matcher: Matcher, t: string, k: nat)
    requires Sound(matcher) && k <= |Probes|
    ensures var cs := Gathered(matcher, t, k);
      && |cs| <= k + 1
      && (k == 0 ==> cs == [])
      && (forall i :: 0 <= i < |cs| ==> Slot(cs[i].entityType) <= k)
  {
    if k > 0 {
      GatheredBound(matcher, t, k - 1);
      var p := Probes[k - 1];
      ProbeIndexOfOrder(k - 1);
      FoundSlots(matcher, p, t);
      var front := Gathered(matcher, t, k - 1);
      var last := Found(matcher, p, t);
      var cs := front + last;
      forall i | 0 <= i < |cs|
        ensures Slot(cs[i].entityType) <= k
      {
        if i >= |front| {
          assert cs[i] == last[i - |front|];
        }
      }
    }
  }

  /** The candidates' slots strictly increase. */
  predicate Ascending(cs: seq<Candidate>) {
    forall i, j :: 0 <= i < j < |cs| ==> Slot(cs[i].entityType) < Slot(cs[j].entityType)
  }

  lemma AscendingAppend(front: seq<Candidate>, last: seq<Candidate>, b: nat)
    requires Ascending(front) && Ascending(last)
    requires forall i :: 0 <= i < |front| ==> Slot(front[i].entityType) <= b
    requires forall i :: 0 <= i < |last| ==> b < Slot(last[i].entityType)
    ensures Ascending(front + last)
  {
    var cs := front + last;
    forall i, j | 0 <= i < j < |cs|
      ensures Slot(cs[i].entityType) < Slot(cs[j].entityType)
    {
      if i >= |front| {
        assert cs[i] == last[i - |front|] && cs[j] == last[j - |front|];
      } else if j >= |front| {
        assert cs[i] == front[i] && cs[j] == last[j - |front|];
      }
    }
  }

  /** The slots of the first `k` searches' candidates strictly increase. */
  lemma {:induction false} GatheredOrdered(matcher: Matcher, t: string, k: nat)
    requires Sound(matcher) && k <= |Probes|
    ensures Ascending(Gathered(matcher, t, k))
  {
    if k > 0 {
      var p := Probes[k - 1];
      var front := Gathered(matcher, t, k - 1);
      var last := Found(matcher, p, t);
      FoundSlots(matcher, p, t);
      if k == 1 {
        assert front + last == last;
      } else {
        GatheredOrdered(matcher, t, k - 1);
        GatheredBound(matcher, t, k - 1);
        ProbeIndexOfOrder(k - 1);
        AscendingAppend(front, last, k - 1);
      }
    }
  }

  /** Every candidate of the first `k` searches is well placed. */
  lemma {:induction false} GatheredPlaced(matcher: Matcher, t: string, k: nat)
    requires Sound(matcher) && k <= |Probes|
    ensures forall c :: c in Gathered(matcher, t, k) ==> WellPlaced(matcher, t, c)
  {
    if k > 0 {
      GatheredPlaced(matcher, t, k - 1);
      FoundPlaced(matcher, Probes[k - 1], t);
    }
  }

  /** A type appears among one search's candidates exactly when the search
      serves it and its pattern occurs. */
  lemma FoundPresence(matcher: Matcher, p: Probe, t: string, c: Category)
    requires Sound(matcher) && Slot(c) < 6
    ensures (exists x :: x in Found(matcher, p, t) && x.entityType == c)
            <==> ProbeOf(c) == p && matcher(ProbeRe(p), t) != []
  {
    var cs := Found(matcher, p, t);
    FoundTypes(matcher, p, t);
    ServesSlots(p);
    SlotFollowsProbe(c);
    if ProbeOf(c) == p && matcher(ProbeRe(p), t) != [] {
      var i :| 0 <= i < |Serves(p)| && Serves(p)[i] == c;
      assert cs[i] in cs;
    }
  }

  /** A type served by one of the first `k` searches appears among their
      candidates exactly when that search's pattern occurs. */
  lemma {:induction false} GatheredPresence(matcher: Matcher, t: string, k: nat, c: Category)
    requires Sound(matcher) && k <= |Probes| && Slot(c) < 6
    ensures (exists x :: x in Gathered(matcher, t, k) && x.entityType == c)
            <==> ProbeIndex(ProbeOf(c)) < k && matcher(ProbeRe(ProbeOf(c)), t) != []
  {
    if k > 0 {
      GatheredPresence(matcher, t, k - 1, c);
      FoundPresence(matcher, Probes[k - 1], t, c);
      ProbeIndexOfOrder(k - 1);
      var front := Gathered(matcher, t, k - 1);
      var last := Found(matcher, Probes[k - 1], t);
      assert forall x :: x in Gathered(matcher, t, k) <==> x in front || x in last;
    }
  }

  /** At most six candidates, each well placed, in the fixed type order
      DATE_OF_BIRTH, GENDER, FAMILY_INFO, MARITAL_STATUS, NATIONALITY,
      PHOTO_REFERENCES, so no type appears twice. */
  lemma SupplementaryShape(matcher: Matcher, t: string)
    requires Sound(matcher)
    ensures var cs := Supplementary(matcher, t);
      && |cs| <= 6
      && (forall c :: c in cs ==> WellPlaced(matcher, t, c))
      && Ascending(cs)
  {
    GatheredBound(matcher, t, |Probes|);
    GatheredOrdered(matcher, t, |Probes|);
    GatheredPlaced(matcher, t, |Probes|);
  }

  /** A type appears among the candidates exactly when the search that
      serves it finds a match. */
  lemma SupplementaryPresence(matcher: Matcher, t: string, c: Category)
    requires Sound(matcher) && Slot(c) < 6
    ensures (exists x :: x in Supplementary(matcher, t) && x.entityType == c)
            <==> matcher(ProbeRe(ProbeOf(c)), t) != []
  {
    GatheredPresence(matcher, t, |Probes|, c);
  }

  /** The date of birth and the gender of the combined pattern are emitted
      together or not at all. */
  lemma DobWithGender(matcher: Matcher, t: string)
    requires Sound(matcher)
    ensures (exists x :: x in Supplementary(matcher, t) && x.entityType == DateOfBirth)
            <==> (exists x :: x in Supplementary(matcher, t) && x.entityType == Gender)
  {
    assert ProbeOf(DateOfBirth) == ProbeOf(Gender);
    SupplementaryPresence(matcher, t, DateOfBirth);
    SupplementaryPresence(matcher, t, Gender);
  }
}
