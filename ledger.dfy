/** The per-document entity ledger (`pii_entities`, a `defaultdict(list)`):
    for every lower-cased entity type, the distinct texts found for it, in
    the order they were first seen. An entity type is present only once a
    text has been recorded for it, so no list is ever empty. */
module Ledger {

  type Ledger = map<string, seq<string>>

  predicate NoDup(xs: seq<string>) {
    forall i, j :: 0 <= i < j < |xs| ==> xs[i] != xs[j]
  }

  /** Every list is non-empty and duplicate-free. */
  predicate Valid(l: Ledger) {
    forall k :: k in l ==> |l[k]| > 0 && NoDup(l[k])
  }

  /** `if text not in pii_entities[key]: pii_entities[key].append(text)`:
      a text already listed under its key is not added again. */
  function Record(l: Ledger, key: string, value: string): (r: Ledger)
    ensures key in r && value in r[key]
    ensures forall k :: k in r <==> k in l || k == key
    ensures forall k :: k in l ==> l[k] <= r[k]
    ensures forall v :: v in r[key] ==> v == value || (key in l && v in l[key])
    ensures forall k :: k in r && k != key ==> r[k] == l[k]
    ensures key in l && value in l[key] ==> r == l
    ensures !(key in l && value in l[key]) ==> |r[key]| == (if key in l then |l[key]| else 0) + 1
  {
    if key in l && value in l[key] then l
    else l[key := (if key in l then l[key] else []) + [value]]
  }

  /** Recording keeps every list non-empty and duplicate-free. */
  lemma RecordValid(l: Ledger, key: string, value: string)
    requires Valid(l)
    ensures Valid(Record(l, key, value))
  {
    var r := Record(l, key, value);
    if !(key in l && value in l[key]) {
      var xs := r[key];
      forall i, j | 0 <= i < j < |xs| ensures xs[i] != xs[j] {
        if j == |xs| - 1 {
          assert xs[i] in xs[..|xs| - 1];
        }
      }
    }
  }

  /** Recording the texts `vs` one after another under one key. */
  function RecordEach(l: Ledger, key: string, vs: seq<string>): Ledger
    decreases |vs|
  {
    if |vs| == 0 then l else RecordEach(Record(l, key, vs[0]), key, vs[1..])
  }

  /** The distinct elements of `xs` in the order of their first occurrence. */
  function Dedup(xs: seq<string>): (ys: seq<string>)
    ensures NoDup(ys)
    ensures forall x :: x in ys <==> x in xs
    decreases |xs|
  {
    if |xs| == 0 then []
    else
      var front := Dedup(xs[..|xs| - 1]);
      var x := xs[|xs| - 1];
      assert forall y :: y in xs <==> y in xs[..|xs| - 1] || y == x by {
        assert xs == xs[..|xs| - 1] + [x];
      }
      if x in front then front
      else
        assert forall i :: 0 <= i < |front| ==> front[i] != x;
        front + [x]
  }

  /** A duplicate-free list is its own first-seen list. */
  lemma {:induction false} DedupOfNoDup(xs: seq<string>)
    requires NoDup(xs)
    ensures Dedup(xs) == xs
    decreases |xs|
  {
    if |xs| > 0 {
      var front := xs[..|xs| - 1];
      assert NoDup(front);
      DedupOfNoDup(front);
      assert xs[|xs| - 1] !in front;
      assert front + [xs[|xs| - 1]] == xs;
    }
  }

  lemma {:induction false} DedupSnoc(xs: seq<string>, x: string)
    ensures Dedup(xs + [x]) == if x in xs then Dedup(xs) else Dedup(xs) + [x]
  {
    assert (xs + [x])[..|xs + [x]| - 1] == xs;
  }

  /** Recording a run of texts under one key leaves under that key exactly
      the texts already there followed by the new distinct ones in order of
      first appearance: the first-seen de-duplication of everything seen. */
  lemma {:induction false} RecordEachIsDedup(l: Ledger, key: string, vs: seq<string>)
    requires key in l ==> NoDup(l[key])
    ensures var before := if key in l then l[key] else [];
      var r := RecordEach(l, key, vs);
      (key in r <==> key in l || |vs| > 0) &&
      (key in r ==> r[key] == Dedup(before + vs))
    decreases |vs|
  {
    var before := if key in l then l[key] else [];
    if |vs| == 0 {
      assert before + vs == before;
      if key in l {
        DedupOfNoDup(before);
      }
    } else {
      var l1 := Record(l, key, vs[0]);
      RecordIsDedupStep(l, key, vs[0]);
      RecordEachIsDedup(l1, key, vs[1..]);
      assert RecordEach(l, key, vs) == RecordEach(l1, key, vs[1..]);
      DedupAppend(before, vs[0], vs[1..]);
      AppendHead(before, vs);
    }
  }

  lemma RecordIsDedupStep(l: Ledger, key: string, v: string)
    requires key in l ==> NoDup(l[key])
    ensures Record(l, key, v)[key] == Dedup((if key in l then l[key] else []) + [v])
  {
    var before := if key in l then l[key] else [];
    DedupOfNoDup(before);
    DedupSnoc(before, v);
  }

  lemma AppendHead(xs: seq<string>, vs: seq<string>)
    requires |vs| > 0
    ensures xs + [vs[0]] + vs[1..] == xs + vs
  {
    assert vs == [vs[0]] + vs[1..];
  }

  /** De-duplicating in two stages is de-duplicating at once. */
  lemma {:induction false} DedupAppend(xs: seq<string>, x: string, ys: seq<string>)
    ensures Dedup(Dedup(xs + [x]) + ys) == Dedup(xs + [x] + ys)
    decreases |ys|
  {
    if |ys| == 0 {
      assert Dedup(xs + [x]) + ys == Dedup(xs + [x]);
      assert xs + [x] + ys == xs + [x];
      DedupOfNoDup(Dedup(xs + [x]));
    } else {
      var init := ys[..|ys| - 1];
      var y := ys[|ys| - 1];
      DedupAppend(xs, x, init);
      assert Dedup(xs + [x]) + ys == (Dedup(xs + [x]) + init) + [y];
      assert xs + [x] + ys == (xs + [x] + init) + [y];
      DedupSnoc(Dedup(xs + [x]) + init, y);
      DedupSnoc(xs + [x] + init, y);
      assert y in Dedup(xs + [x]) + init <==> y in xs + [x] + init;
    }
  }
}
