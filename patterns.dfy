/** The regular expressions of the engine. Each is named by a constructor;
    its text, kept verbatim, and the number of capture groups it declares
    are given by `Source` and `Captures`. The matching itself is the
    matcher's business. Patterns shared between the recognizer catalogue,
    the basic anonymizer and the document identifier are defined once. */
module Patterns {
  datatype Regex =
    | NameRe | NameWithMiddleRe | FatherNameRe | MotherNameRe | EmailRe
    | PhoneRe | LabelledPhoneRe | LinkedinRe | GithubRe | TwitterRe | FacebookRe
    | DobNumericRe | DobYearFirstRe | DobMonthNameRe | GenderLabelRe | GenderParenRe
    | GenderValueRe | MaritalRe | StreetRe | AddressLabelRe | UnitAddressRe
    | MonthRangeRe | YearToYearRe | YearDashYearRe | MonthYearRe | YearToYearOrPresentRe
    | YearDashYearOrPresentRe | CompanyRe | CompanyNameLabelRe | EmployerRe
    | WorkedAtRe | SchoolOfRe | SchoolLabelRe | SchoolSuffixRe | AgeLabelRe
    | YearsOldRe | AgeRe | DobGenderRe | FamilyRe | MaritalStatusRe | NationalityRe
    | PhotoRe

  /** The pattern's text. */
  function Source(r: Regex): string {
    match r
    // Person names
    case NameRe => @"\b([A-Z][a-z]+\s+[A-Z][a-z]+)\b"
    case NameWithMiddleRe => @"\b([A-Z][a-z]+\s+[A-Z][a-z]*\.\s+[A-Z][a-z]+)\b"
    case FatherNameRe => @"Father(?:'|')?s Name\s*[:：]\s*([^\n,]+)"
    case MotherNameRe => @"Mother(?:'|')?s Name\s*[:：]\s*([^\n,]+)"
    // E-mail addresses
    case EmailRe => @"\b[A-Za-z0-9._%+-]+@[A-Za-z0-9.-]+\.[A-Z|a-z]{2,}\b"
    // Phone numbers
    case PhoneRe => @"\b(?:\+\d{1,3}[-.\s]?)?(?:\(?\d{3}\)?[-.\s]?){1,2}\d{3,4}[-.\s]?\d{3,4}\b"
    case LabelledPhoneRe => @"(?:Phone|Tel|Mobile|Contact)(?:\s*(?:Number|No|#|\:))?\s*[:：]?\s*(\+?[\d\s\(\)\-\.]{7,})"
    // Social-media links
    case LinkedinRe => @"(?:linkedin\.com/in/[a-zA-Z0-9_-]+)"
    case GithubRe => @"(?:github\.com/[a-zA-Z0-9_-]+)"
    case TwitterRe => @"(?:twitter\.com/[a-zA-Z0-9_-]+)"
    case FacebookRe => @"(?:facebook\.com/[a-zA-Z0-9_.-]+)"
    // Dates of birth
    case DobNumericRe => @"(?:Date\s+of\s+Birth|DOB|Birth\s+Date)(?:\s*(?:\:|\())?\s*(\d{1,2}[-/\.]\d{1,2}[-/\.]\d{2,4})"
    case DobYearFirstRe => @"(?:Date\s+of\s+Birth|DOB|Birth\s+Date)(?:\s*(?:\:|\())?\s*(\d{4}[-/\.]\d{1,2}[-/\.]\d{1,2})"
    case DobMonthNameRe => @"(?:Date\s+of\s+Birth|DOB|Birth\s+Date)(?:\s*(?:\:|\())?\s*([A-Za-z]+\s+\d{1,2},?\s+\d{4})"
    // Gender
    case GenderLabelRe => @"(?:Gender|Sex)\s*[:：]\s*([^\n,]+)"
    case GenderParenRe => @"\((?:M|F|Male|Female|男|女)\)"
    case GenderValueRe => @"Gender\s*[:-]?\s*(Male|Female|M|F|男|女)"
    // Marital status
    case MaritalRe => @"(?:Marital\s+Status|Marriage\s+Status)\s*[:：]\s*([^\n,]+)"
    // Addresses
    case StreetRe => @"\b\d+\s+[A-Za-z0-9\s,]+(?:Street|Avenue|Road|Blvd|Drive|Lane|Place|Way|Apt|Suite|St|Rd|Dr|Ave)\b"
    case AddressLabelRe => @"(?:Address|Location)\s*[:：]\s*([^\n]+)"
    case UnitAddressRe => @"\b\d+/[A-Za-z0-9],?\s+[A-Za-z0-9\s,]+,\s+[A-Za-z\s]+,\s+[A-Za-z\s]+\b"
    // Education and work dates
    case MonthRangeRe => @"(?:January|February|March|April|May|June|July|August|September|October|November|December)\s+\d{4}\s+to\s+(?:January|February|March|April|May|June|July|August|September|October|November|December)\s+\d{4}"
    case YearToYearRe => @"\b(?:19|20)\d{2}\s+to\s+(?:19|20)\d{2}\b"
    case YearDashYearRe => @"\b(?:19|20)\d{2}\s*[-–]\s*(?:19|20)\d{2}\b"
    case MonthYearRe => @"\b(?:Jan|Feb|Mar|Apr|May|Jun|Jul|Aug|Sep|Oct|Nov|Dec)[a-z]*\s+\d{4}\b"
    case YearToYearOrPresentRe => @"\b(?:19|20)\d{2}\s+to\s+(?:19|20)\d{2}|[Pp]resent\b"
    case YearDashYearOrPresentRe => @"\b(?:19|20)\d{2}\s*[-–]\s*(?:19|20)\d{2}|[Pp]resent\b"
    // Company names
    case CompanyRe => @"[Cc]ompany\s*[-:]?\s*([^\n,]+)"
    case CompanyNameLabelRe => @"[Cc]ompany\s+[Nn]ame\s*[:：]\s*([^\n,]+)"
    case EmployerRe => @"[Ee]mployer\s*[:：]\s*([^\n,]+)"
    case WorkedAtRe => @"[Ww]orked\s+(?:at|for|with)\s+([A-Z][A-Za-z0-9\s&,.]+(?:Inc|LLC|Ltd|Limited|Corp|Corporation|Co|Company))"
    // School names
    case SchoolOfRe => @"(?:University|College|Institute|School)\s+of\s+([^\n,]+)"
    case SchoolLabelRe => @"(?:University|College|Institute|School)\s*[:：]\s*([^\n,]+)"
    case SchoolSuffixRe => @"(?:[A-Z][a-z]+\s+)+(?:University|College|Institute|School)"
    // Ages
    case AgeLabelRe => @"(?:Age|Years)\s*[:：]\s*(\d{1,2})"
    case YearsOldRe => @"(\d{1,2})\s+[Yy]ears\s+[Oo]ld"
    case AgeRe => @"[Aa]ge[:：]?\s*(\d{1,2})"
    // Supplementary extractors
    case DobGenderRe => @"Date\s+of\s+Birth\s*\(\s*Gender\s*\)\s*:\s*(\d{4}-\d{2}-\d{2})\s*\(\s*([MF])\s*\)"
    case FamilyRe => @"(?:Father|Mother)(?:\'|\')?s\s+Name\s*[:：]\s*([^\n]+)"
    case MaritalStatusRe => @"Marital\s+Status\s*[:：]\s*([^\n,]+)"
    case NationalityRe => @"Nationality\s*[:：]\s*([^\n,]+)"
    case PhotoRe => @"(?:Photo|Picture|Image)\s*[:：]?\s*([^\n]+\.(?:jpg|jpeg|png|gif))"
  }

  /** The number of capture groups the pattern declares. Every group of
      these patterns is mandatory, so a match reports all of them. */
  function Captures(r: Regex): nat {
    match r
    case DobGenderRe => 2
    case NameRe | NameWithMiddleRe | FatherNameRe | MotherNameRe | LabelledPhoneRe |
         DobNumericRe | DobYearFirstRe | DobMonthNameRe | GenderLabelRe | GenderValueRe |
         MaritalRe | AddressLabelRe | CompanyRe | CompanyNameLabelRe | EmployerRe |
         WorkedAtRe | SchoolOfRe | SchoolLabelRe | AgeLabelRe | YearsOldRe |
         AgeRe | FamilyRe | MaritalStatusRe | NationalityRe | PhotoRe
      => 1
    case _ => 0
  }
}
