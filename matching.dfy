/** The optional value used for Python's `None` and for "no match". */
module Optional {
  datatype Option<+T> = None | Some(value: T)
}

/** The regular-expression engine seen from outside. The engine is not
    modelled: a `Matcher` stands for `re.finditer` and is a parameter of every
    operation that matches. What the rest of the model relies on is stated by
    `Sound`: every match lies inside the searched text, reports exactly as many
    capture groups as the pattern declares, each group inside its match, and
    the matches come left to right without overlapping. `re.search` is the
    first match `re.finditer` would produce. */
module Matching {
  import opened Optional
  import opened Patterns

  /** Half-open character range `[start, end)` of a match or of a group. */
  datatype Span = Span(start: nat, end: nat)

  /** `whole` is `m.span()`, `groups[k - 1]` is `m.span(k)`. */
  datatype Match = Match(whole: Span, groups: seq<Span>)

  type Matcher = (Regex, string) -> seq<Match>

  predicate SpanFits(sp: Span, t: string) {
    sp.start <= sp.end <= |t|
  }

  predicate MatchFits(m: Match, r: Regex, t: string) {
    && SpanFits(m.whole, t)
    && |m.groups| == Captures(r)
    && forall g :: 0 <= g < |m.groups| ==>
         m.whole.start <= m.groups[g].start <= m.groups[g].end <= m.whole.end
  }

  predicate MatchesFit(ms: seq<Match>, r: Regex, t: string) {
    && (forall k :: 0 <= k < |ms| ==> MatchFits(ms[k], r, t))
    && (forall k :: 0 <= k < |ms| - 1 ==> ms[k].whole.end <= ms[k + 1].whole.start)
  }

  ghost predicate Sound(matcher: Matcher) {
    forall r, t :: MatchesFit(matcher(r, t), r, t)
  }

  /** `m.group()` / `m.group(0)`. */
  function WholeText(m: Match, t: string): string
    requires SpanFits(m.whole, t)
  {
    t[m.whole.start..m.whole.end]
  }

  /** `m.group(k)` for `k >= 1`. */
  function GroupText(m: Match, k: nat, t: string): string
    requires 1 <= k <= |m.groups| && m.groups[k - 1].start <= m.groups[k - 1].end <= |t|
  {
    t[m.groups[k - 1].start..m.groups[k - 1].end]
  }

  /** `re.search(r, t)`: the first match, if any. */
  function Search(matcher: Matcher, r: Regex, t: string): (found: Option<Match>)
    requires Sound(matcher)
    ensures found.Some? ==> MatchFits(found.value, r, t)
    ensures found.None? <==> matcher(r, t) == []
    ensures found.Some? ==> found.value == matcher(r, t)[0]
  {
    var ms := matcher(r, t);
    if |ms| == 0 then None else Some(ms[0])
  }
}
