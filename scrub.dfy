/** The classifier's input cleaning, `scrub(text)`: lower-case the text,
    replace every e-mail-like token by `<EMAIL>`, then every free-standing
    run of ten or more digits by `<PHONE>`.

    Each `re.sub` is modelled by the left-to-right scan it performs. The
    pattern `\S+@\S+` matches, leftmost and greedily, a whole
    whitespace-free run holding an `@` with a character on either side, so
    the first scan collects each run and rewrites it as a whole
    (`EmailScan`). The pattern `\b\d{10,}\b` matches a whole maximal digit
    run of ten or more that no word character touches, so the second scan
    collects each digit run and decides when the run ends (`PhoneScan`).
    `EmailMatch` and `PhoneMatch` state what the two patterns match, and
    the lemmas tie each scan's decision to them. */
module Scrub {
  import opened Text

  const EmailToken := "<EMAIL>"
  const PhoneToken := "<PHONE>"
  const MinPhoneDigits: nat := 10

  predicate AllDigits(s: string) {
    forall i :: 0 <= i < |s| ==> IsDigit(s[i])
  }

  predicate NoSpace(s: string) {
    forall i :: 0 <= i < |s| ==> !IsSpace(s[i])
  }

  /** The whitespace characters of a text, in order. */
  function Spaces(s: string): string
    decreases |s|
  {
    if |s| == 0 then []
    else (if IsSpace(s[0]) then [s[0]] else []) + Spaces(s[1..])
  }

  // ---------- what the two patterns match ----------

  /** `\S+@\S+` matches `s[p..e]`: a whitespace-free stretch with an `@`
      that has at least one character before and after it. */
  ghost predicate EmailMatch(s: string, p: nat, e: nat) {
    && p < e <= |s|
    && (forall i :: p <= i < e ==> !IsSpace(s[i]))
    && exists q :: p < q < e - 1 && s[q] == '@'
  }

  /** `\b\d{10,}\b` matches `s[p..e]`: ten or more digits, with no word
      character just before or just after them. */
  ghost predicate PhoneMatch(s: string, p: nat, e: nat) {
    && p + MinPhoneDigits <= e <= |s|
    && (forall i :: p <= i < e ==> IsDigit(s[i]))
    && (p == 0 || !IsWordChar(s[p - 1]))
    && (e == |s| || !IsWordChar(s[e]))
  }

  /** A run that `\S+@\S+` rewrites: an `@` strictly inside it. */
  predicate HasInnerAt(w: string) {
    |w| >= 3 && '@' in w[1..|w| - 1]
  }

  // ---------- the two scans ----------

  /** What a completed whitespace-free run becomes. */
  function EmailRun(run: string): string {
    if HasInnerAt(run) then EmailToken else run
  }

  /** `re.sub(r"\S+@\S+", "<EMAIL>", ...)` on `s`, with `run` the part of
      the current whitespace-free run already read. */
  function EmailScan(s: string, run: string): string
    decreases |s|
  {
    if |s| == 0 then EmailRun(run)
    else if IsSpace(s[0]) then EmailRun(run) + [s[0]] + EmailScan(s[1..], [])
    else EmailScan(s[1..], run + [s[0]])
  }

  function EmailPass(s: string): string {
    EmailScan(s, [])
  }

  /** What a completed digit run becomes: `<PHONE>` when it is long enough,
      no word character precedes it and none follows it. */
  function PhoneRun(digits: string, wordBefore: bool, wordAfter: bool): string {
    if !wordBefore && !wordAfter && |digits| >= MinPhoneDigits then PhoneToken else digits
  }

  /** `re.sub(r"\b\d{10,}\b", "<PHONE>", ...)` on `s`, with `digits` the
      part of the current digit run already read and `wordBefore` whether a
      word character comes just before that run (or before `s`, when no run
      is open). */
  function PhoneScan(s: string, wordBefore: bool, digits: string): string
    decreases |s|
  {
    if |s| == 0 then PhoneRun(digits, wordBefore, false)
    else if IsDigit(s[0]) then PhoneScan(s[1..], wordBefore, digits + [s[0]])
    else PhoneRun(digits, wordBefore, IsWordChar(s[0])) + [s[0]] + PhoneScan(s[1..], IsWordChar(s[0]), [])
  }

  function PhonePass(s: string): string {
    PhoneScan(s, false, [])
  }

  /** `scrub(text)`. */
  function Scrub(text: string): string {
    PhonePass(EmailPass(Lower(text)))
  }

  // ---------- the e-mail pass ----------

  /** Within one whitespace-free run, `\S+@\S+` matches somewhere exactly
      when the run has an inner `@`, and then it matches the whole run, the
      leftmost and longest match. */
  lemma EmailRunMatch(w: string)
    requires |w| > 0 && NoSpace(w)
    ensures (exists p, e :: EmailMatch(w, p, e)) <==> HasInnerAt(w)
    ensures HasInnerAt(w) ==> EmailMatch(w, 0, |w|)
  {
    if exists p, e :: EmailMatch(w, p, e) {
      var p, e :| EmailMatch(w, p, e);
      var q :| p < q < e - 1 && w[q] == '@';
      assert w[1..|w| - 1][q - 1] == '@';
    }
    if HasInnerAt(w) {
      var k :| 0 <= k < |w| - 2 && w[1..|w| - 1][k] == '@';
      assert w[k + 1] == '@';
      assert EmailMatch(w, 0, |w|);
    }
  }

  /** The e-mail pass works run by run: whitespace splits it. */
  lemma {:induction false} EmailScanSplit(a: string, c: char, b: string, run: string)
    requires IsSpace(c)
    ensures EmailScan(a + [c] + b, run) == EmailScan(a, run) + [c] + EmailScan(b, [])
    decreases |a|
  {
    var s := a + [c] + b;
    if |a| == 0 {
      assert s[0] == c && s[1..] == b;
    } else {
      assert s[0] == a[0] && s[1..] == a[1..] + [c] + b;
      if IsSpace(a[0]) {
        EmailScanSplit(a[1..], c, b, []);
      } else {
        EmailScanSplit(a[1..], c, b, run + [a[0]]);
      }
    }
  }

  lemma EmailPassSplit(a: string, c: char, b: string)
    requires IsSpace(c)
    ensures EmailPass(a + [c] + b) == EmailPass(a) + [c] + EmailPass(b)
  {
    EmailScanSplit(a, c, b, []);
  }

  lemma {:induction false} EmailScanRun(w: string, run: string)
    requires NoSpace(w)
    ensures EmailScan(w, run) == EmailRun(run + w)
    decreases |w|
  {
    if |w| > 0 {
      EmailScanRun(w[1..], run + [w[0]]);
      assert run + [w[0]] + w[1..] == run + w;
    } else {
      assert run + w == run;
    }
  }

  /** A single run becomes `<EMAIL>` when it has an inner `@` and is kept
      otherwise. */
  lemma EmailPassRun(w: string)
    requires NoSpace(w)
    ensures EmailPass(w) == if HasInnerAt(w) then EmailToken else w
  {
    EmailScanRun(w, []);
    assert [] + w == w;
  }

  lemma {:induction false} EmailScanNoAt(s: string, run: string)
    requires '@' !in s && '@' !in run
    ensures EmailScan(s, run) == run + s
    decreases |s|
  {
    if |s| == 0 {
      NoAtKept(run);
      assert run + s == run;
    } else {
      assert run + [s[0]] + s[1..] == run + s;
      if IsSpace(s[0]) {
        NoAtKept(run);
        EmailScanNoAt(s[1..], []);
        assert [] + s[1..] == s[1..];
      } else {
        EmailScanNoAt(s[1..], run + [s[0]]);
      }
    }
  }

  lemma NoAtKept(run: string)
    requires '@' !in run
    ensures EmailRun(run) == run
  {
    if |run| >= 3 {
      var m := run[1..|run| - 1];
      forall k | 0 <= k < |m|
        ensures m[k] != '@'
      {
        assert m[k] == run[k + 1];
      }
    }
  }

  /** A text without `@` passes unchanged. */
  lemma EmailPassNoAt(s: string)
    requires '@' !in s
    ensures EmailPass(s) == s
  {
    EmailScanNoAt(s, []);
    assert [] + s == s;
  }

  lemma {:induction false} SpacesAppend(x: string, y: string)
    ensures Spaces(x + y) == Spaces(x) + Spaces(y)
    decreases |x|
  {
    if |x| > 0 {
      var h := if IsSpace(x[0]) then [x[0]] else [];
      assert (x + y)[0] == x[0];
      assert (x + y)[1..] == x[1..] + y;
      SpacesAppend(x[1..], y);
      assert h + (Spaces(x[1..]) + Spaces(y)) == (h + Spaces(x[1..])) + Spaces(y);
    } else {
      assert x + y == y;
    }
  }

  lemma {:induction false} SpacesOfNoSpace(w: string)
    requires NoSpace(w)
    ensures Spaces(w) == []
    decreases |w|
  {
    if |w| > 0 {
      SpacesOfNoSpace(w[1..]);
    }
  }

  lemma SpacesOfSpace(c: char)
    requires IsSpace(c)
    ensures Spaces([c]) == [c]
  {
    assert [c][1..] == [];
  }

  lemma EmailRunSpaces(run: string)
    requires NoSpace(run)
    ensures Spaces(EmailRun(run)) == []
  {
    SpacesOfNoSpace(run);
    SpacesOfNoSpace(EmailToken);
  }

  lemma {:induction false} EmailScanSpaces(s: string, run: string)
    requires NoSpace(run)
    ensures Spaces(EmailScan(s, run)) == Spaces(s)
    decreases |s|
  {
    EmailRunSpaces(run);
    if |s| > 0 {
      SpacesAppend([s[0]], s[1..]);
      assert [s[0]] + s[1..] == s;
      if IsSpace(s[0]) {
        EmailScanSpaces(s[1..], []);
        SpacesOfSpace(s[0]);
        SpacesAppend(EmailRun(run) + [s[0]], EmailScan(s[1..], []));
        SpacesAppend(EmailRun(run), [s[0]]);
      } else {
        EmailScanSpaces(s[1..], run + [s[0]]);
      }
    }
  }

  /** The e-mail pass keeps every whitespace character, in order. */
  lemma EmailPassSpaces(s: string)
    ensures Spaces(EmailPass(s)) == Spaces(s)
  {
    EmailScanSpaces(s, []);
  }

  // ---------- the phone pass ----------

  /** Inside one digit run with nothing around it, `\b\d{10,}\b` matches
      exactly when the run has ten or more digits, and then it matches the
      whole run. */
  lemma PhoneRunMatch(d: string)
    requires AllDigits(d)
    ensures (exists p, e :: PhoneMatch(d, p, e)) <==> |d| >= MinPhoneDigits
    ensures forall p: nat, e: nat :: PhoneMatch(d, p, e) ==> p == 0 && e == |d|
  {
    if |d| >= MinPhoneDigits {
      assert PhoneMatch(d, 0, |d|);
    }
  }

  /** The phone pass works piece by piece: a character that is not a word
      character (a space, punctuation) separates it. */
  lemma {:induction false} PhoneScanSplit(a: string, c: char, b: string, wordBefore: bool, digits: string)
    requires !IsWordChar(c)
    ensures PhoneScan(a + [c] + b, wordBefore, digits) == PhoneScan(a, wordBefore, digits) + [c] + PhoneScan(b, false, [])
    decreases |a|
  {
    var s := a + [c] + b;
    if |a| == 0 {
      assert s[0] == c && s[1..] == b;
    } else {
      assert s[0] == a[0] && s[1..] == a[1..] + [c] + b;
      if IsDigit(a[0]) {
        PhoneScanSplit(a[1..], c, b, wordBefore, digits + [a[0]]);
      } else {
        PhoneScanSplit(a[1..], c, b, IsWordChar(a[0]), []);
      }
    }
  }

  lemma PhonePassSplit(a: string, c: char, b: string)
    requires !IsWordChar(c)
    ensures PhonePass(a + [c] + b) == PhonePass(a) + [c] + PhonePass(b)
  {
    PhoneScanSplit(a, c, b, false, []);
  }

  /** Reading digits only extends the open run. */
  lemma {:induction false} PhoneScanDigits(d: string, rest: string, wordBefore: bool, digits: string)
    requires AllDigits(d)
    ensures PhoneScan(d + rest, wordBefore, digits) == PhoneScan(rest, wordBefore, digits + d)
    decreases |d|
  {
    if |d| > 0 {
      assert (d + rest)[0] == d[0] && (d + rest)[1..] == d[1..] + rest;
      PhoneScanDigits(d[1..], rest, wordBefore, digits + [d[0]]);
      assert digits + [d[0]] + d[1..] == digits + d;
    } else {
      assert d + rest == rest && digits + d == digits;
    }
  }

  /** A free-standing digit run becomes `<PHONE>` exactly when it has ten
      or more digits; glued to a word character before it, it is kept. */
  lemma PhonePassDigits(d: string)
    requires AllDigits(d)
    ensures PhonePass(d) == if |d| >= MinPhoneDigits then PhoneToken else d
    ensures PhoneScan(d, true, []) == d
  {
    PhoneScanDigits(d, [], false, []);
    PhoneScanDigits(d, [], true, []);
    assert d + [] == d && [] + d == d;
  }

  /** A digit run glued to a following letter or underscore is kept, however
      long it is. */
  lemma PhonePassGluedAfter(d: string, x: char)
    requires AllDigits(d) && IsWordChar(x) && !IsDigit(x)
    ensures PhonePass(d + [x]) == d + [x]
  {
    PhoneScanDigits(d, [x], false, []);
    assert [] + d == d;
    assert [x][0] == x && [x][1..] == [];
  }

  predicate AllWordChars(s: string) {
    forall i :: 0 <= i < |s| ==> IsWordChar(s[i])
  }

  /** Inside a word, a digit run is closed only by another word character
      or by the end of the text; either way `\b` fails at one of its ends
      unless it is the whole text. */
  lemma {:induction false} PhoneScanWord(w: string, wordBefore: bool, digits: string)
    requires AllWordChars(w) && AllDigits(digits)
    requires wordBefore || !AllDigits(w)
    ensures PhoneScan(w, wordBefore, digits) == digits + w
    decreases |w|
  {
    if |w| > 0 {
      assert digits + [w[0]] + w[1..] == digits + w;
      if IsDigit(w[0]) {
        PhoneScanWord(w[1..], wordBefore, digits + [w[0]]);
      } else {
        PhoneScanWord(w[1..], true, []);
        assert [] + w[1..] == w[1..];
      }
    } else {
      assert digits + w == digits;
    }
  }

  /** A word (letters, digits, underscores) that is not all digits is kept
      whole: none of its digit runs stands between two word boundaries. */
  lemma PhonePassWord(w: string)
    requires AllWordChars(w) && !AllDigits(w)
    ensures PhonePass(w) == w
  {
    PhoneScanWord(w, false, []);
    assert [] + w == w;
  }

  /** Ten digits in a row from position `i`. */
  predicate LongRunAt(s: string, i: nat) {
    i + MinPhoneDigits <= |s| && forall j :: i <= j < i + MinPhoneDigits ==> IsDigit(s[j])
  }

  /** Ten digits in a row somewhere in the text. */
  ghost predicate HasLongDigitRun(s: string) {
    exists i: nat :: LongRunAt(s, i)
  }

  lemma LongDigitPrefix(x: string, y: string)
    requires AllDigits(x) && |x| >= MinPhoneDigits
    ensures HasLongDigitRun(x + y)
  {
    assert LongRunAt(x + y, 0);
  }

  lemma NoLongRunParts(x: string, y: string)
    requires !HasLongDigitRun(x + y)
    ensures !HasLongDigitRun(y)
    ensures AllDigits(x) ==> |x| < MinPhoneDigits
  {
    if AllDigits(x) && |x| >= MinPhoneDigits {
      LongDigitPrefix(x, y);
    }
    forall i: nat
      ensures !LongRunAt(y, i)
    {
      if LongRunAt(y, i) {
        assert LongRunAt(x + y, |x| + i);
      }
    }
  }

  lemma {:induction false} PhoneScanNoLongRun(s: string, wordBefore: bool, digits: string)
    requires AllDigits(digits) && !HasLongDigitRun(digits + s)
    ensures PhoneScan(s, wordBefore, digits) == digits + s
    decreases |s|
  {
    NoLongRunParts(digits, s);
    if |s| > 0 {
      assert digits + [s[0]] + s[1..] == digits + s;
      if IsDigit(s[0]) {
        PhoneScanNoLongRun(s[1..], wordBefore, digits + [s[0]]);
      } else {
        NoLongRunParts(digits + [s[0]], s[1..]);
        assert [] + s[1..] == s[1..];
        PhoneScanNoLongRun(s[1..], IsWordChar(s[0]), []);
      }
    } else {
      assert digits + s == digits;
    }
  }

  /** A text without ten consecutive digits passes unchanged. */
  lemma PhonePassNoLongRun(s: string)
    requires !HasLongDigitRun(s)
    ensures PhonePass(s) == s
  {
    assert [] + s == s;
    PhoneScanNoLongRun(s, false, []);
  }

  lemma PhoneRunSpaces(digits: string, wordBefore: bool, wordAfter: bool)
    requires AllDigits(digits)
    ensures Spaces(PhoneRun(digits, wordBefore, wordAfter)) == []
  {
    SpacesOfNoSpace(digits);
    SpacesOfNoSpace(PhoneToken);
  }

  lemma {:induction false} PhoneScanSpaces(s: string, wordBefore: bool, digits: string)
    requires AllDigits(digits)
    ensures Spaces(PhoneScan(s, wordBefore, digits)) == Spaces(s)
    decreases |s|
  {
    if |s| == 0 {
      PhoneRunSpaces(digits, wordBefore, false);
    } else {
      SpacesAppend([s[0]], s[1..]);
      assert [s[0]] + s[1..] == s;
      if IsDigit(s[0]) {
        PhoneScanSpaces(s[1..], wordBefore, digits + [s[0]]);
        assert Spaces([s[0]]) == [] by { assert [s[0]][1..] == []; }
      } else {
        var w := IsWordChar(s[0]);
        PhoneRunSpaces(digits, wordBefore, w);
        PhoneScanSpaces(s[1..], w, []);
        SpacesAppend(PhoneRun(digits, wordBefore, w) + [s[0]], PhoneScan(s[1..], w, []));
        SpacesAppend(PhoneRun(digits, wordBefore, w), [s[0]]);
      }
    }
  }

  /** The phone pass keeps every whitespace character, in order. */
  lemma PhonePassSpaces(s: string)
    ensures Spaces(PhonePass(s)) == Spaces(s)
  {
    PhoneScanSpaces(s, false, []);
  }

  // ---------- scrub ----------

  lemma LowerKeepsClasses(c: char)
    ensures IsSpace(LowerChar(c)) <==> IsSpace(c)
    ensures IsDigit(LowerChar(c)) <==> IsDigit(c)
    ensures LowerChar(c) == '@' <==> c == '@'
    ensures LowerChar(LowerChar(c)) == LowerChar(c)
  {
  }

  lemma LowerKeepsAt(x: string)
    ensures '@' in Lower(x) <==> '@' in x
  {
    if '@' in x {
      var i :| 0 <= i < |x| && x[i] == '@';
      assert Lower(x)[i] == '@';
    }
    if '@' in Lower(x) {
      var i :| 0 <= i < |x| && Lower(x)[i] == '@';
      LowerKeepsClasses(x[i]);
    }
  }

  lemma LowerAppend(x: string, y: string)
    ensures Lower(x + y) == Lower(x) + Lower(y)
  {
  }

  lemma LowerIdempotent(s: string)
    ensures Lower(Lower(s)) == Lower(s)
  {
    forall i | 0 <= i < |s|
      ensures Lower(Lower(s))[i] == Lower(s)[i]
    {
      LowerKeepsClasses(s[i]);
    }
  }

  /** Scrubbing ignores case: an already lower-cased text scrubs the same. */
  lemma ScrubIgnoresCase(text: string)
    ensures Scrub(Lower(text)) == Scrub(text)
  {
    LowerIdempotent(text);
  }

  /** Whitespace splits the scrub: the tokens between whitespace are
      scrubbed one by one. */
  lemma ScrubSplit(a: string, c: char, b: string)
    requires IsSpace(c)
    ensures Scrub(a + [c] + b) == Scrub(a) + [c] + Scrub(b)
  {
    LowerKeepsClasses(c);
    assert !IsUpper(c);
    LowerAppend(a + [c], b);
    LowerAppend(a, [c]);
    assert Lower(a + [c] + b) == Lower(a) + [c] + Lower(b);
    EmailPassSplit(Lower(a), c, Lower(b));
    PhonePassSplit(EmailPass(Lower(a)), c, EmailPass(Lower(b)));
  }

  /** A whitespace-free token with an inner `@` becomes `<EMAIL>` whatever
      digits it holds; one without is only lower-cased and phone-scrubbed. */
  lemma ScrubToken(w: string)
    requires |w| > 0 && NoSpace(w)
    ensures HasInnerAt(w) ==> Scrub(w) == EmailToken
    ensures !HasInnerAt(w) ==> Scrub(w) == PhonePass(Lower(w))
  {
    var l := Lower(w);
    forall i | 0 <= i < |l|
      ensures !IsSpace(l[i])
    {
      LowerKeepsClasses(w[i]);
    }
    EmailPassRun(l);
    assert HasInnerAt(l) <==> HasInnerAt(w) by {
      if |w| >= 3 {
        assert l[1..|l| - 1] == Lower(w[1..|w| - 1]);
        LowerKeepsAt(w[1..|w| - 1]);
      }
    }
    if HasInnerAt(w) {
      assert !HasLongDigitRun(EmailToken);
      PhonePassNoLongRun(EmailToken);
    }
  }

  /** A whole token of digits becomes `<PHONE>` exactly when it has ten or
      more of them. */
  lemma ScrubDigits(d: string)
    requires AllDigits(d)
    ensures Scrub(d) == if |d| >= MinPhoneDigits then PhoneToken else d
  {
    assert Lower(d) == d;
    forall i | 0 <= i < |d|
      ensures !IsSpace(d[i])
    {
    }
    EmailPassRun(d);
    assert '@' !in d;
    PhonePassDigits(d);
  }

  /** Scrubbing keeps every whitespace character, in order. */
  lemma ScrubSpaces(text: string)
    ensures Spaces(Scrub(text)) == Spaces(text)
  {
    EmailPassSpaces(Lower(text));
    PhonePassSpaces(EmailPass(Lower(text)));
    LowerSpaces(text);
  }

  lemma {:induction false} LowerSpaces(s: string)
    ensures Spaces(Lower(s)) == Spaces(s)
    decreases |s|
  {
    if |s| > 0 {
      LowerSpaces(s[1..]);
      assert Lower(s)[1..] == Lower(s[1..]);
      LowerKeepsClasses(s[0]);
      if IsSpace(s[0]) {
        assert !IsUpper(s[0]);
      }
    }
  }

  /** A text with no `@` and no ten digits in a row is only lower-cased. */
  lemma ScrubOnlyLowers(text: string)
    requires '@' !in text && !HasLongDigitRun(text)
    ensures Scrub(text) == Lower(text)
  {
    var l := Lower(text);
    LowerKeepsAt(text);
    EmailPassNoAt(l);
    forall j | 0 <= j < |l|
      ensures IsDigit(l[j]) <==> IsDigit(text[j])
    {
      LowerKeepsClasses(text[j]);
    }
    forall i: nat
      ensures !LongRunAt(l, i)
    {
      if LongRunAt(l, i) {
        assert LongRunAt(text, i);
      }
    }
    PhonePassNoLongRun(l);
  }
}
