/** The document identifier (`extract_resume_id`): an id derived from the
    first e-mail address in the document, else from the first two-word
    capitalised name, else from the whole text, each hashed so that the id
    does not reveal it. The hash is not modelled: `Digest` stands for
    `hashlib.md5(s.encode()).hexdigest()` and is a parameter. */
module ResumeId {
  import opened Optional
  import opened Matching
  import opened Patterns
  import Text

  type Digest = string -> string

  predicate IsLowerHex(c: char) {
    ('0' <= c <= '9') || ('a' <= c <= 'f')
  }

  /** What `hexdigest()` returns: 32 lower-case hexadecimal characters. */
  ghost predicate HexDigest(md5: Digest) {
    forall s :: |md5(s)| == 32 && forall i :: 0 <= i < 32 ==> IsLowerHex(md5(s)[i])
  }

  /** Which part of the document the id is derived from. */
  datatype Origin = FromEmail | FromName | FromWholeText

  function Prefix(o: Origin): string {
    match o
    case FromEmail => "email-"
    case FromName => "name-"
    case FromWholeText => "resume-"
  }

  /** How many hexadecimal characters of the digest are kept. */
  function Width(o: Origin): nat {
    match o
    case FromWholeText => 12
    case _ => 8
  }

  /** The priority: an e-mail match wins over a name match, which wins over
      the whole text. */
  function OriginOf(matcher: Matcher, content: string): Origin {
    if matcher(EmailRe, content) != [] then FromEmail
    else if matcher(NameRe, content) != [] then FromName
    else FromWholeText
  }

  /** The text that is hashed for the chosen origin: the whole first match,
      or the whole document. */
  function KeyText(matcher: Matcher, content: string): string
    requires Sound(matcher)
  {
    match OriginOf(matcher, content)
    case FromEmail => WholeText(Search(matcher, EmailRe, content).value, content)
    case FromName => WholeText(Search(matcher, NameRe, content).value, content)
    case FromWholeText => content
  }

  /** `extract_resume_id(resume_content)`. */
  function ExtractResumeId(matcher: Matcher, md5: Digest, content: string): (id: string)
    requires Sound(matcher)
  {
    match Search(matcher, EmailRe, content)
    case Some(m) => "email-" + Text.PySlice(md5(WholeText(m, content)), 0, 8)
    case None =>
      match Search(matcher, NameRe, content)
      case Some(m) => "name-" + Text.PySlice(md5(WholeText(m, content)), 0, 8)
      case None => "resume-" + Text.PySlice(md5(content), 0, 12)
  }

  /** Reads an id back into its origin and its digest part. */
  function ParseId(id: string): Option<(Origin, string)> {
    if |id| >= 6 && id[..6] == "email-" then Some((FromEmail, id[6..]))
    else if |id| >= 5 && id[..5] == "name-" then Some((FromName, id[5..]))
    else if |id| >= 7 && id[..7] == "resume-" then Some((FromWholeText, id[7..]))
    else None
  }

  /** An id names its origin by its prefix, followed by the first `Width`
      characters of the digest of the text that origin selects. */
  lemma IdStructure(matcher: Matcher, md5: Digest, content: string)
    requires Sound(matcher)
    ensures var o := OriginOf(matcher, content);
      ExtractResumeId(matcher, md5, content) == Prefix(o) + Text.PySlice(md5(KeyText(matcher, content)), 0, Width(o))
  {
  }

  /** Every id reads back to the origin the priority picks and to the
      leading digest characters of the text that origin selects. */
  lemma ParseIdRoundTrip(matcher: Matcher, md5: Digest, content: string)
    requires Sound(matcher)
    ensures var o := OriginOf(matcher, content);
      ParseId(ExtractResumeId(matcher, md5, content)) == Some((o, Text.PySlice(md5(KeyText(matcher, content)), 0, Width(o))))
  {
    var o := OriginOf(matcher, content);
    var d := Text.PySlice(md5(KeyText(matcher, content)), 0, Width(o));
    var id := ExtractResumeId(matcher, md5, content);
    IdStructure(matcher, md5, content);
    assert id == Prefix(o) + d;
    assert id[..|Prefix(o)|] == Prefix(o) && id[|Prefix(o)|..] == d;
    assert id[0] == Prefix(o)[0];
    match o
    case FromEmail =>
    case FromName =>
      assert !(|id| >= 6 && id[..6] == "email-") by { assert id[0] == 'n'; }
    case FromWholeText =>
      assert !(|id| >= 6 && id[..6] == "email-") by { assert id[0] == 'r'; }
      assert !(|id| >= 5 && id[..5] == "name-") by { assert id[0] == 'r'; }
  }

  /** With a genuine hex digest the id has a fixed length per origin and
      its digest part is lower-case hexadecimal. */
  lemma IdShape(matcher: Matcher, md5: Digest, content: string)
    requires Sound(matcher) && HexDigest(md5)
    ensures var o := OriginOf(matcher, content);
      var id := ExtractResumeId(matcher, md5, content);
      |id| == |Prefix(o)| + Width(o) &&
      forall i :: |Prefix(o)| <= i < |id| ==> IsLowerHex(id[i])
  {
    var o := OriginOf(matcher, content);
    var h := md5(KeyText(matcher, content));
    IdStructure(matcher, md5, content);
    assert Text.PySlice(h, 0, Width(o)) == h[..Width(o)];
  }

  /** Two documents whose first e-mail address is the same text get the
      same id, whatever else they contain; their ledger entries therefore
      share one key. */
  lemma SameEmailSameId(matcher: Matcher, md5: Digest, c1: string, c2: string)
    requires Sound(matcher)
    requires Search(matcher, EmailRe, c1).Some? && Search(matcher, EmailRe, c2).Some?
    requires WholeText(Search(matcher, EmailRe, c1).value, c1) == WholeText(Search(matcher, EmailRe, c2).value, c2)
    ensures ExtractResumeId(matcher, md5, c1) == ExtractResumeId(matcher, md5, c2)
  {
  }
}
