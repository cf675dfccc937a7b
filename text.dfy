/** Python string primitives used by the de-identification engine, restricted
    to ASCII: the character classes behind `\s`, `\d`, `\w`, `str.lower`,
    `str.strip`, slicing `s[a:b]`, and `str.replace`, which rewrites EVERY
    non-overlapping occurrence, scanning from the left.

    `str.replace` is defined directly (`ReplaceAll`) and related to an
    independent description, "split on the old text and join with the new
    one" (`Split`, `Join`), so that what it does to a document can be read
    off as: the pieces between occurrences are kept, and every occurrence is
    rewritten. */
module Text {

  /** Python's `str.isspace` / regex `\s` on ASCII: tab, line feed, vertical
      tab, form feed, carriage return, the four separators 0x1C-0x1F, space. */
  predicate IsSpace(c: char) {
    ('\t' <= c <= '\r') || ('\U{1C}' <= c <= '\U{1F}') || c == ' '
  }

  /** Regex `\d` on ASCII. */
  predicate IsDigit(c: char) {
    '0' <= c <= '9'
  }

  /** Regex `\w` on ASCII: letters, digits and the underscore. */
  predicate IsWordChar(c: char) {
    ('a' <= c <= 'z') || ('A' <= c <= 'Z') || IsDigit(c) || c == '_'
  }

  predicate IsUpper(c: char) {
    'A' <= c <= 'Z'
  }

  function LowerChar(c: char): char {
    if IsUpper(c) then (c as int + 32) as char else c
  }

  /** `str.lower()` on ASCII. */
  function Lower(s: string): string {
    seq(|s|, i requires 0 <= i < |s| => LowerChar(s[i]))
  }

  predicate AllSpace(s: string) {
    forall i :: 0 <= i < |s| ==> IsSpace(s[i])
  }

  function StripLeft(s: string): (r: string)
    ensures |r| <= |s|
    ensures |r| > 0 ==> !IsSpace(r[0])
    decreases |s|
  {
    if |s| > 0 && IsSpace(s[0]) then StripLeft(s[1..]) else s
  }

  /** What `StripLeft` keeps is a suffix of its input, and what it drops is
      whitespace. */
  lemma {:induction false} StripLeftSuffix(s: string)
    ensures StripLeft(s) == s[|s| - |StripLeft(s)|..]
    ensures AllSpace(s[..|s| - |StripLeft(s)|])
    decreases |s|
  {
    if |s| > 0 && IsSpace(s[0]) {
      StripLeftSuffix(s[1..]);
      var k := |s[1..]| - |StripLeft(s[1..])|;
      assert s[..k + 1] == [s[0]] + s[1..][..k];
    }
  }

  function StripRight(s: string): (r: string)
    ensures |r| <= |s|
    ensures |r| > 0 ==> !IsSpace(r[|r| - 1])
    decreases |s|
  {
    if |s| > 0 && IsSpace(s[|s| - 1]) then StripRight(s[..|s| - 1]) else s
  }

  /** What `StripRight` keeps is a prefix of its input, and what it drops
      is whitespace. */
  lemma {:induction false} StripRightPrefix(s: string)
    ensures StripRight(s) == s[..|StripRight(s)|]
    ensures AllSpace(s[|StripRight(s)|..])
    decreases |s|
  {
    if |s| > 0 && IsSpace(s[|s| - 1]) {
      var front := s[..|s| - 1];
      StripRightPrefix(front);
      var k := |StripRight(front)|;
      assert s[k..] == front[k..] + [s[|s| - 1]];
    }
  }

  /** `str.strip()`: drop leading and trailing whitespace. */
  function Strip(s: string): (r: string)
    ensures |r| <= |s|
    ensures |r| > 0 ==> !IsSpace(r[0]) && !IsSpace(r[|r| - 1])
    ensures Occurs(r, s)
  {
    var l := StripLeft(s);
    var r := StripRight(l);
    StripLeftSuffix(s);
    StripRightPrefix(l);
    assert OccursAt(r, s, |s| - |l|);
    r
  }

  /** The engine's "blank document" test, `len(text.strip()) == 0`. */
  predicate IsBlank(s: string) {
    |Strip(s)| == 0
  }

  /** `r` is the stretch of `s` from `i` on, with only whitespace before
      and after it. */
  predicate SpaceFramed(s: string, i: nat, r: string) {
    && i + |r| <= |s|
    && r == s[i..i + |r|]
    && AllSpace(s[..i])
    && AllSpace(s[i + |r|..])
  }

  /** A whitespace-framed suffix `l` of `s`, cut down to a prefix `r` with
      only whitespace after it, is whitespace-framed in `s`. */
  lemma FramedSuffixPrefix(s: string, l: string, r: string)
    requires |l| <= |s| && l == s[|s| - |l|..] && AllSpace(s[..|s| - |l|])
    requires |r| <= |l| && r == l[..|r|] && AllSpace(l[|r|..])
    ensures SpaceFramed(s, |s| - |l|, r)
  {
    var i := |s| - |l|;
    assert r == s[i..i + |r|];
    assert l[|r|..] == s[i + |r|..];
  }

  /** `str.strip()` removes whitespace only, and all of it at both ends:
      the result is the stretch of `s` between a whitespace prefix and a
      whitespace suffix. */
  lemma StripDropsOnlySpace(s: string)
    ensures SpaceFramed(s, |s| - |StripLeft(s)|, Strip(s))
  {
    var l := StripLeft(s);
    StripLeftSuffix(s);
    StripRightPrefix(l);
    assert Strip(s) == StripRight(l);
    FramedSuffixPrefix(s, l, StripRight(l));
  }

  /** A text is blank exactly when every character of it is whitespace. */
  lemma BlankIsAllSpace(s: string)
    ensures IsBlank(s) <==> AllSpace(s)
  {
    var l := StripLeft(s);
    StripLeftSuffix(s);
    StripRightPrefix(l);
    assert IsBlank(s) <==> |StripRight(l)| == 0;
    if |l| > 0 {
      assert l[0] == s[|s| - |l|];
    }
    assert l[0..] == l && s[..|s|] == s;
  }

  /** Python's `s[a:b]` for non-negative bounds: both are clamped to the
      length, and an empty slice results when `a >= b`. */
  function PySlice(s: string, a: nat, b: nat): (r: string)
    ensures |r| <= |s|
    ensures a <= b <= |s| ==> r == s[a..b]
    ensures a <= |s| <= b ==> r == s[a..]
    ensures |s| <= a || b <= a ==> r == []
  {
    var lo := if a < |s| then a else |s|;
    var hi := if b < |s| then b else |s|;
    if lo < hi then s[lo..hi] else []
  }

  /** True when `sub` occurs in `s` at index `i`. */
  predicate OccursAt(sub: string, s: string, i: nat) {
    i + |sub| <= |s| && s[i..i + |sub|] == sub
  }

  ghost predicate Occurs(sub: string, s: string) {
    exists i: nat :: OccursAt(sub, s, i)
  }

  /** Python's `s.replace(target, repl)` for an empty `target`: `repl` is inserted
      before every character and at the end. */
  function InsertEverywhere(s: string, repl: string): string
    decreases |s|
  {
    if s == [] then repl else repl + [s[0]] + InsertEverywhere(s[1..], repl)
  }

  /** Python's `s.replace(target, repl)`: scanning from the left, every
      non-overlapping occurrence of `target` is rewritten to `repl`. */
  function ReplaceAll(s: string, target: string, repl: string): string
    decreases |s|
  {
    if |target| == 0 then InsertEverywhere(s, repl)
    else if |s| < |target| then s
    else if s[..|target|] == target then repl + ReplaceAll(s[|target|..], target, repl)
    else [s[0]] + ReplaceAll(s[1..], target, repl)
  }

  /** Python's `s.split(sep)` for a non-empty separator: the pieces between
      the leftmost non-overlapping occurrences of `sep`. */
  function Split(s: string, sep: string): (parts: seq<string>)
    requires |sep| > 0
    ensures |parts| >= 1
    decreases |s|
  {
    if |s| < |sep| then [s]
    else if s[..|sep|] == sep then [[]] + Split(s[|sep|..], sep)
    else
      var rest := Split(s[1..], sep);
      [[s[0]] + rest[0]] + rest[1..]
  }

  /** Python's `sep.join(parts)`. */
  function Join(parts: seq<string>, sep: string): string
    decreases |parts|
  {
    if |parts| == 0 then []
    else if |parts| == 1 then parts[0]
    else parts[0] + sep + Join(parts[1..], sep)
  }

  lemma JoinConsHead(c: char, parts: seq<string>, sep: string)
    requires |parts| >= 1
    ensures Join([[c] + parts[0]] + parts[1..], sep) == [c] + Join(parts, sep)
  {
    var ps := [[c] + parts[0]] + parts[1..];
    assert ps[1..] == parts[1..];
  }

  /** `s.replace(target, repl) == repl.join(s.split(target))`: the pieces of the
      document between occurrences of `target` are kept in order and every
      occurrence is rewritten. */
  lemma {:induction false} ReplaceAllIsJoinOfSplit(s: string, target: string, repl: string)
    requires |target| > 0
    ensures ReplaceAll(s, target, repl) == Join(Split(s, target), repl)
    decreases |s|
  {
    if |s| < |target| {
    } else if s[..|target|] == target {
      var rest := Split(s[|target|..], target);
      ReplaceAllIsJoinOfSplit(s[|target|..], target, repl);
      var parts := [[]] + rest;
      assert Split(s, target) == parts;
      assert parts[1..] == rest;
      assert Join(parts, repl) == [] + repl + Join(rest, repl) == repl + Join(rest, repl);
    } else {
      var rest := Split(s[1..], target);
      ReplaceAllIsJoinOfSplit(s[1..], target, repl);
      assert Split(s, target) == [[s[0]] + rest[0]] + rest[1..];
      JoinConsHead(s[0], rest, repl);
    }
  }

  /** Replacing a text by itself changes nothing. */
  lemma {:induction false} ReplaceAllSelf(s: string, target: string)
    requires |target| > 0
    ensures ReplaceAll(s, target, target) == s
    decreases |s|
  {
    if |s| < |target| {
    } else if s[..|target|] == target {
      ReplaceAllSelf(s[|target|..], target);
      assert s == s[..|target|] + s[|target|..];
    } else {
      ReplaceAllSelf(s[1..], target);
      assert s == [s[0]] + s[1..];
    }
  }

  /** Splitting and re-joining with the same separator gives the document back. */
  lemma SplitJoinRoundTrip(s: string, sep: string)
    requires |sep| > 0
    ensures Join(Split(s, sep), sep) == s
  {
    ReplaceAllIsJoinOfSplit(s, sep, sep);
    ReplaceAllSelf(s, sep);
  }

  lemma OccursInSuffix(sub: string, c: char, s: string, i: nat)
    requires OccursAt(sub, [c] + s, i + 1)
    ensures OccursAt(sub, s, i)
  {
    assert ([c] + s)[i + 1..i + 1 + |sub|] == s[i..i + |sub|];
  }

  /** No piece left between the occurrences contains the separator: every
      occurrence of `target` is rewritten by `ReplaceAll`, not only the first. */
  lemma {:induction false} SplitPiecesAreFree(s: string, sep: string)
    requires |sep| > 0
    ensures forall k :: 0 <= k < |Split(s, sep)| ==> !Occurs(sep, Split(s, sep)[k])
    decreases |s|
  {
    var parts := Split(s, sep);
    if |s| < |sep| {
      forall i: nat | OccursAt(sep, s, i) ensures false { }
    } else if s[..|sep|] == sep {
      SplitPiecesAreFree(s[|sep|..], sep);
      var rest := Split(s[|sep|..], sep);
      assert parts == [[]] + rest;
      forall k | 0 <= k < |parts| ensures !Occurs(sep, parts[k]) {
        if k > 0 {
          assert parts[k] == rest[k - 1];
        }
      }
    } else {
      SplitPiecesAreFree(s[1..], sep);
      var rest := Split(s[1..], sep);
      var head := [s[0]] + rest[0];
      assert parts == [head] + rest[1..];
      forall k | 0 <= k < |parts| ensures !Occurs(sep, parts[k]) {
        if k == 0 {
          forall i: nat | OccursAt(sep, head, i) ensures false {
            if i == 0 {
              SplitPrefixOfText(s, sep);
            } else {
              OccursInSuffix(sep, s[0], rest[0], i - 1);
            }
          }
        } else {
          assert parts[k] == rest[k];
        }
      }
    }
  }

  /** The first piece of a split is a prefix of the text. */
  lemma {:induction false} SplitPrefixOfText(s: string, sep: string)
    requires |sep| > 0
    ensures |Split(s, sep)[0]| <= |s| && Split(s, sep)[0] == s[..|Split(s, sep)[0]|]
    decreases |s|
  {
    if |s| < |sep| {
    } else if s[..|sep|] == sep {
    } else {
      SplitPrefixOfText(s[1..], sep);
    }
  }

  /** A text in which `target` does not occur comes back unchanged. */
  lemma {:induction false} ReplaceAllAbsent(s: string, target: string, repl: string)
    requires |target| > 0 && !Occurs(target, s)
    ensures ReplaceAll(s, target, repl) == s
    decreases |s|
  {
    if |s| >= |target| {
      assert !OccursAt(target, s, 0);
      forall i: nat | OccursAt(target, s[1..], i) ensures false {
        assert s[1..][i..i + |target|] == s[i + 1..i + 1 + |target|];
        assert OccursAt(target, s, i + 1);
      }
      ReplaceAllAbsent(s[1..], target, repl);
    }
  }
}
