/** The fixed table of eighteen sensitive-information categories
    (`SENSITIVE_INFO_TYPES`) and the ordered selection of per-category blocks
    that both the recognizer catalogue and the basic anonymizer's pattern list
    are built by. Callers name categories by string, so a selection is a list
    of strings; a string that names no category selects nothing. */
module Categories {
  import opened Optional
  import Text

  datatype Category =
    | PersonName | EmailAddress | PhoneNumber | SocialMedia | DateOfBirth
    | Gender | MaritalStatus | FamilyInfo | Address | EducationDates
    | WorkDates | PhotoReferences | Age | Nationality | Religion | Location
    | CompanyName | SchoolName

  /** The key of the category in the table. */
  function Name(c: Category): string {
    match c
    case PersonName => "PERSON_NAME"
    case EmailAddress => "EMAIL_ADDRESS"
    case PhoneNumber => "PHONE_NUMBER"
    case SocialMedia => "SOCIAL_MEDIA"
    case DateOfBirth => "DATE_OF_BIRTH"
    case Gender => "GENDER"
    case MaritalStatus => "MARITAL_STATUS"
    case FamilyInfo => "FAMILY_INFO"
    case Address => "ADDRESS"
    case EducationDates => "EDUCATION_DATES"
    case WorkDates => "WORK_DATES"
    case PhotoReferences => "PHOTO_REFERENCES"
    case Age => "AGE"
    case Nationality => "NATIONALITY"
    case Religion => "RELIGION"
    case Location => "LOCATION"
    case CompanyName => "COMPANY_NAME"
    case SchoolName => "SCHOOL_NAME"
  }

  /** The category a table key names, if any. The keys are told apart by
      their first letter first, then compared whole. */
  function Parse(s: string): Option<Category> {
    if |s| == 0 then None
    else match s[0]
      case 'P' =>
        if s == "PERSON_NAME" then Some(PersonName)
        else if s == "PHONE_NUMBER" then Some(PhoneNumber)
        else if s == "PHOTO_REFERENCES" then Some(PhotoReferences)
        else None
      case 'E' =>
        if s == "EMAIL_ADDRESS" then Some(EmailAddress)
        else if s == "EDUCATION_DATES" then Some(EducationDates)
        else None
      case 'S' =>
        if s == "SOCIAL_MEDIA" then Some(SocialMedia)
        else if s == "SCHOOL_NAME" then Some(SchoolName)
        else None
      case 'A' =>
        if s == "ADDRESS" then Some(Address)
        else if s == "AGE" then Some(Age)
        else None
      case 'D' => if s == "DATE_OF_BIRTH" then Some(DateOfBirth) else None
      case 'G' => if s == "GENDER" then Some(Gender) else None
      case 'M' => if s == "MARITAL_STATUS" then Some(MaritalStatus) else None
      case 'F' => if s == "FAMILY_INFO" then Some(FamilyInfo) else None
      case 'W' => if s == "WORK_DATES" then Some(WorkDates) else None
      case 'N' => if s == "NATIONALITY" then Some(Nationality) else None
      case 'R' => if s == "RELIGION" then Some(Religion) else None
      case 'L' => if s == "LOCATION" then Some(Location) else None
      case 'C' => if s == "COMPANY_NAME" then Some(CompanyName) else None
      case _ => None
  }

  /** Every table key parses back to its category. */
  lemma ParseName(c: Category)
    ensures Parse(Name(c)) == Some(c)
  {
  }

  /** A string parses to a category only if it is that category's key, so
      keys and categories are in one-to-one correspondence. */
  lemma ParsedIsName(s: string, c: Category)
    requires Parse(s) == Some(c)
    ensures Name(c) == s
  {
    match s[0]
    case 'P' =>
      if s == "PERSON_NAME" {
        assert c == PersonName;
      } else if s == "PHONE_NUMBER" {
        assert c == PhoneNumber;
      } else {
        assert c == PhotoReferences;
      }
    case 'E' =>
      if s == "EMAIL_ADDRESS" {
        assert c == EmailAddress;
      } else {
        assert c == EducationDates;
      }
    case 'S' =>
      if s == "SOCIAL_MEDIA" {
        assert c == SocialMedia;
      } else {
        assert c == SchoolName;
      }
    case 'A' =>
      if s == "ADDRESS" {
        assert c == Address;
      } else {
        assert c == Age;
      }
    case 'D' => assert c == DateOfBirth;
    case 'G' => assert c == Gender;
    case 'M' => assert c == MaritalStatus;
    case 'F' => assert c == FamilyInfo;
    case 'W' => assert c == WorkDates;
    case 'N' => assert c == Nationality;
    case 'R' => assert c == Religion;
    case 'L' => assert c == Location;
    case 'C' => assert c == CompanyName;
  }

  lemma NameInjective(a: Category, b: Category)
    requires Name(a) == Name(b)
    ensures a == b
  {
    ParseName(a);
    ParseName(b);
  }

  /** The table's keys in their declared order. */
  const AllCategories: seq<Category> := [
    PersonName, EmailAddress, PhoneNumber, SocialMedia, DateOfBirth, Gender,
    MaritalStatus, FamilyInfo, Address, EducationDates, WorkDates,
    PhotoReferences, Age, Nationality, Religion, Location, CompanyName,
    SchoolName]

  /** The position of a category in the table. */
  function Index(c: Category): (i: nat)
    ensures i < |AllCategories| && AllCategories[i] == c
  {
    match c
    case PersonName => 0
    case EmailAddress => 1
    case PhoneNumber => 2
    case SocialMedia => 3
    case DateOfBirth => 4
    case Gender => 5
    case MaritalStatus => 6
    case FamilyInfo => 7
    case Address => 8
    case EducationDates => 9
    case WorkDates => 10
    case PhotoReferences => 11
    case Age => 12
    case Nationality => 13
    case Religion => 14
    case Location => 15
    case CompanyName => 16
    case SchoolName => 17
  }

  /** `list(SENSITIVE_INFO_TYPES.keys())`. */
  function AllNames(): (names: seq<string>)
    ensures |names| == 18
    ensures forall c: Category :: Name(c) in names
    ensures forall s :: s in names ==> Parse(s).Some?
  {
    var names := seq(|AllCategories|, i requires 0 <= i < |AllCategories| => Name(AllCategories[i]));
    assert forall c: Category :: names[Index(c)] == Name(c);
    assert forall i :: 0 <= i < |AllCategories| ==> Parse(names[i]).Some? by {
      forall i | 0 <= i < |AllCategories| { ParseName(AllCategories[i]); }
    }
    names
  }

  /** A caller's selection: `None` (the default) stands for every category. */
  function Selected(selection: Option<seq<string>>): seq<string> {
    match selection
    case None => AllNames()
    case Some(names) => names
  }

  /** The ledger key of a category, `entity_type.lower()`. */
  function Key(c: Category): string {
    Text.Lower(Name(c))
  }

  /** The order in which the catalogue's category branches are written; the
      five categories FAMILY_INFO, PHOTO_REFERENCES, NATIONALITY, RELIGION and
      LOCATION have no branch. */
  const CatalogueOrder: seq<Category> := [
    PersonName, EmailAddress, PhoneNumber, SocialMedia, DateOfBirth, Gender,
    MaritalStatus, Address, EducationDates, WorkDates, CompanyName,
    SchoolName, Age]

  predicate HasBranch(c: Category) {
    Rank(c) < |CatalogueOrder|
  }

  /** The position of a category's branch in the catalogue; the categories
      without a branch come after all of them. */
  function Rank(c: Category): (r: nat)
    ensures r <= |CatalogueOrder|
    ensures r < |CatalogueOrder| ==> CatalogueOrder[r] == c
  {
    match c
    case PersonName => 0
    case EmailAddress => 1
    case PhoneNumber => 2
    case SocialMedia => 3
    case DateOfBirth => 4
    case Gender => 5
    case MaritalStatus => 6
    case Address => 7
    case EducationDates => 8
    case WorkDates => 9
    case CompanyName => 10
    case SchoolName => 11
    case Age => 12
    case _ => |CatalogueOrder|
  }

  /** The catalogue order lists each branch at its rank. */
  lemma RankOfOrder(i: nat)
    requires i < |CatalogueOrder|
    ensures Rank(CatalogueOrder[i]) == i
  {
    if i == 0 {} else if i == 1 {} else if i == 2 {} else if i == 3 {}
    else if i == 4 {} else if i == 5 {} else if i == 6 {} else if i == 7 {}
    else if i == 8 {} else if i == 9 {} else if i == 10 {} else if i == 11 {}
    else {}
  }

  /** The result of running the first `k` catalogue branches: each branch
      whose category is named in `names` contributes its block, in catalogue
      order. */
  function Pick<T>(k: nat, names: seq<string>, block: Category -> seq<T>): seq<T>
    requires k <= |CatalogueOrder|
  {
    if k == 0 then []
    else
      var c := CatalogueOrder[k - 1];
      Pick(k - 1, names, block) + (if Name(c) in names then block(c) else [])
  }

  /** Names that are not category keys are ignored by the selection. */
  lemma {:induction false} PickIgnoresUnknown<T>(k: nat, names: seq<string>, extra: seq<string>, block: Category -> seq<T>)
    requires k <= |CatalogueOrder|
    requires forall s :: s in extra ==> Parse(s).None?
    ensures Pick(k, names + extra, block) == Pick(k, names, block)
  {
    if k > 0 {
      PickIgnoresUnknown(k - 1, names, extra, block);
      var c := CatalogueOrder[k - 1];
      ParseName(c);
      assert Name(c) in names + extra <==> Name(c) in names;
    }
  }

  /** The selection depends only on which category keys are named, not on
      their order or repetitions. */
  lemma {:induction false} PickDependsOnNamedKeys<T>(k: nat, n1: seq<string>, n2: seq<string>, block: Category -> seq<T>)
    requires k <= |CatalogueOrder|
    requires forall c: Category :: Name(c) in n1 <==> Name(c) in n2
    ensures Pick(k, n1, block) == Pick(k, n2, block)
  {
    if k > 0 {
      PickDependsOnNamedKeys(k - 1, n1, n2, block);
    }
  }

  /** A value is picked exactly when it belongs to the block of a selected
      catalogue category. */
  lemma {:induction false} PickMembership<T>(k: nat, names: seq<string>, block: Category -> seq<T>, x: T)
    requires k <= |CatalogueOrder|
    ensures x in Pick(k, names, block) <==>
            exists j :: 0 <= j < k && Name(CatalogueOrder[j]) in names && x in block(CatalogueOrder[j])
  {
    if k > 0 {
      PickMembership(k - 1, names, block, x);
      var c := CatalogueOrder[k - 1];
      if x in Pick(k, names, block) && x !in Pick(k - 1, names, block) {
        assert Name(c) in names && x in block(c);
      }
    }
  }

  /** Each value comes from the block of the category it is keyed by, and
      that category is selected and among the first `k` branches. */
  ghost predicate FromSelectedBlocks<T>(xs: seq<T>, k: nat, names: seq<string>, block: Category -> seq<T>, key: T -> Category) {
    forall i :: 0 <= i < |xs| ==>
      Rank(key(xs[i])) < k && Name(key(xs[i])) in names && xs[i] in block(key(xs[i]))
  }

  /** The values' keys strictly increase in catalogue order. */
  predicate KeysAscend<T>(xs: seq<T>, key: T -> Category) {
    forall i, j :: 0 <= i < j < |xs| ==> Rank(key(xs[i])) < Rank(key(xs[j]))
  }

  /** Every selected category among the first `k` whose block is not empty
      keys some value. */
  predicate KeysCover<T>(xs: seq<T>, k: nat, names: seq<string>, block: Category -> seq<T>, key: T -> Category) {
    forall c :: Rank(c) < k && Name(c) in names && |block(c)| > 0 ==>
      exists i :: 0 <= i < |xs| && key(xs[i]) == c
  }

  /** When every value of a block carries that block's category as its
      key, each picked value comes from the block of its key, which is
      selected and among the first `k` branches. */
  lemma {:induction false} PickRanked<T>(k: nat, names: seq<string>, block: Category -> seq<T>, key: T -> Category)
    requires k <= |CatalogueOrder|
    requires forall c, x :: x in block(c) ==> key(x) == c
    ensures FromSelectedBlocks(Pick(k, names, block), k, names, block, key)
  {
    if k > 0 {
      PickRanked(k - 1, names, block, key);
      var c := CatalogueOrder[k - 1];
      var prev := Pick(k - 1, names, block);
      var xs := Pick(k, names, block);
      assert xs == prev + (if Name(c) in names then block(c) else []);
      RankOfOrder(k - 1);
      forall i | 0 <= i < |xs|
        ensures Rank(key(xs[i])) < k && Name(key(xs[i])) in names && xs[i] in block(key(xs[i]))
      {
        if i < |prev| {
          assert xs[i] == prev[i];
        } else {
          assert Name(c) in names && xs[i] == block(c)[i - |prev|];
        }
      }
    }
  }

  /** With blocks of at most one keyed value, the picked values' keys
      strictly increase in catalogue order, so no category repeats. */
  lemma {:induction false} PickAscending<T>(k: nat, names: seq<string>, block: Category -> seq<T>, key: T -> Category)
    requires k <= |CatalogueOrder|
    requires forall c, x :: x in block(c) ==> key(x) == c
    requires forall c :: |block(c)| <= 1
    ensures KeysAscend(Pick(k, names, block), key)
  {
    if k > 0 {
      PickAscending(k - 1, names, block, key);
      PickRanked(k - 1, names, block, key);
      var c := CatalogueOrder[k - 1];
      var prev := Pick(k - 1, names, block);
      var xs := Pick(k, names, block);
      assert xs == prev + (if Name(c) in names then block(c) else []);
      RankOfOrder(k - 1);
      forall i, j | 0 <= i < j < |xs|
        ensures Rank(key(xs[i])) < Rank(key(xs[j]))
      {
        if j < |prev| {
          assert xs[i] == prev[i] && xs[j] == prev[j];
        } else {
          assert xs[i] == prev[i] && xs[j] == block(c)[j - |prev|];
        }
      }
    }
  }

  /** Every selected category among the first `k` whose block is not empty
      has a picked value keyed by it. */
  lemma {:induction false} PickComplete<T>(k: nat, names: seq<string>, block: Category -> seq<T>, key: T -> Category)
    requires k <= |CatalogueOrder|
    requires forall c, x :: x in block(c) ==> key(x) == c
    ensures KeysCover(Pick(k, names, block), k, names, block, key)
  {
    if k > 0 {
      PickComplete(k - 1, names, block, key);
      var c := CatalogueOrder[k - 1];
      var prev := Pick(k - 1, names, block);
      var xs := Pick(k, names, block);
      assert xs == prev + (if Name(c) in names then block(c) else []);
      RankOfOrder(k - 1);
      forall d | Rank(d) < k && Name(d) in names && |block(d)| > 0
        ensures exists i :: 0 <= i < |xs| && key(xs[i]) == d
      {
        if Rank(d) == k - 1 {
          assert d == c && xs[|prev|] == block(c)[0];
        } else {
          var i :| 0 <= i < |prev| && key(prev[i]) == d;
          assert xs[i] == prev[i];
        }
      }
    }
  }

  /** With every category selected, every block is included, in order. */
  lemma {:induction false} PickAll<T>(k: nat, block: Category -> seq<T>)
    requires k <= |CatalogueOrder|
    ensures Pick(k, AllNames(), block) == Blocks(k, block)
  {
    if k > 0 {
      PickAll(k - 1, block);
    }
  }

  /** The blocks of the first `k` catalogue branches, concatenated. */
  function Blocks<T>(k: nat, block: Category -> seq<T>): seq<T>
    requires k <= |CatalogueOrder|
  {
    if k == 0 then [] else Blocks(k - 1, block) + block(CatalogueOrder[k - 1])
  }
}
