/** Per-document orchestration: the dispatch between the two anonymizers
    (`process_text`), the per-cell step of the dataset run
    (`process_resume`), which keeps the identifier-keyed map of ledgers
    (`organized_entities`), and the `.partN` checkpoint loop. Reading and
    writing files is not modelled: a column is a sequence of cells and a
    checkpoint is the part number with the map it would write. */
module Pipeline {
  import opened Optional
  import opened Matching
  import opened Categories
  import L = Ledger
  import opened Basic
  import opened Presidio
  import opened ResumeId
  import Text

  /** The two engines `init_engines` returns; `None` when initialisation
      failed. */
  datatype Engines = Engines(analyzer: Analyzer, anonymizer: Anonymizer)

  /** `process_text(text, analyzer, anonymizer, selected_types)`: the
      external-engine path when the library is available and both engines
      exist, the basic anonymizer otherwise. `None` stands for the basic
      anonymizer's missing return value, which the caller cannot unpack. */
  function ProcessText(matcher: Matcher, presidioAvailable: bool, engines: Option<Engines>,
                       text: string, selection: Option<seq<string>>): Option<Outcome>
    requires Sound(matcher)
  {
    if Text.IsBlank(text) then Some(Outcome(text, map[]))
    else if presidioAvailable && engines.Some? then
      PresidioSpec(matcher, engines.value.analyzer, engines.value.anonymizer, text, selection)
    else BasicSpec(matcher, text, selection)
  }

  /** Whatever path is taken, a returned ledger has only non-empty
      duplicate-free lists; and a document yields no outcome exactly when
      the selection lacks ADDRESS and the basic anonymizer runs, because the
      engines are unavailable or because they raised. */
  lemma ProcessTextOutcome(matcher: Matcher, presidioAvailable: bool, engines: Option<Engines>,
                           text: string, selection: Option<seq<string>>)
    requires Sound(matcher)
    ensures var out := ProcessText(matcher, presidioAvailable, engines, text, selection);
      && (out.None? <==>
            && !Text.IsBlank(text)
            && "ADDRESS" !in Selected(selection)
            && (!presidioAvailable || engines.None? ||
                Attempt(matcher, engines.value.analyzer, engines.value.anonymizer, text, Selected(selection)).None?))
      && (out.Some? ==> L.Valid(out.value.ledger))
  {
    if !Text.IsBlank(text) {
      if presidioAvailable && engines.Some? {
        PresidioFails(matcher, engines.value.analyzer, engines.value.anonymizer, text, selection);
        if ProcessText(matcher, presidioAvailable, engines, text, selection).Some? {
          PresidioLedger(matcher, engines.value.analyzer, engines.value.anonymizer, text, selection);
        }
      } else {
        BasicFails(matcher, text, selection);
        if "ADDRESS" in Selected(selection) {
          BasicValid(matcher, text, selection);
        }
      }
    }
  }

  /** With the default selection every document yields an outcome. */
  lemma DefaultSelectionNeverFails(matcher: Matcher, presidioAvailable: bool, engines: Option<Engines>, text: string)
    requires Sound(matcher)
    ensures ProcessText(matcher, presidioAvailable, engines, text, None).Some?
  {
    ProcessTextOutcome(matcher, presidioAvailable, engines, text, None);
  }

  /** `process_text` as the statements that run it. */
  method ProcessTextCall(matcher: Matcher, presidioAvailable: bool, engines: Option<Engines>,
                         text: string, selection: Option<seq<string>>) returns (out: Option<Outcome>)
    requires Sound(matcher)
    ensures out == ProcessText(matcher, presidioAvailable, engines, text, selection)
  {
    if Text.IsBlank(text) {
      return Some(Outcome(text, map[]));
    }
    if presidioAvailable && engines.Some? {
      out := PresidioAnonymize(matcher, engines.value.analyzer, engines.value.anonymizer, text, selection);
    } else {
      out := BasicAnonymize(matcher, text, selection);
    }
  }

  /** The map after entries are stored in order: a later entry under an id
      replaces an earlier one. */
  function Stored(before: map<string, L.Ledger>, entries: seq<Option<(string, L.Ledger)>>): map<string, L.Ledger>
    decreases |entries|
  {
    if |entries| == 0 then before
    else
      var prev := Stored(before, entries[..|entries| - 1]);
      match entries[|entries| - 1]
      case None => prev
      case Some((id, l)) => prev[id := l]
  }

  /** Storing a single entry. */
  lemma StoredOne(before: map<string, L.Ledger>, e: Option<(string, L.Ledger)>)
    ensures Stored(before, [e]) == if e.Some? then before[e.value.0 := e.value.1] else before
  {
    assert [e][..0] == [];
  }

  /** Storing one more entry of a sequence is storing it into the map the
      earlier ones built. */
  lemma StoredStep(before: map<string, L.Ledger>, entries: seq<Option<(string, L.Ledger)>>, i: nat)
    requires i < |entries|
    ensures Stored(before, entries[..i + 1]) == Stored(Stored(before, entries[..i]), [entries[i]])
  {
    assert entries[..i + 1][..i] == entries[..i];
    StoredOne(Stored(before, entries[..i]), entries[i]);
  }

  /** The last entry under an id is the one the map keeps. */
  lemma {:induction false} LaterEntryWins(before: map<string, L.Ledger>, entries: seq<Option<(string, L.Ledger)>>, i: nat)
    requires i < |entries| && entries[i].Some?
    requires forall j :: i < j < |entries| ==> entries[j].None? || entries[j].value.0 != entries[i].value.0
    ensures entries[i].value.0 in Stored(before, entries)
    ensures Stored(before, entries)[entries[i].value.0] == entries[i].value.1
    decreases |entries|
  {
    var front := entries[..|entries| - 1];
    if i < |entries| - 1 {
      assert front[i] == entries[i];
      forall j | i < j < |front|
        ensures front[j].None? || front[j].value.0 != front[i].value.0
      {
        assert front[j] == entries[j];
      }
      LaterEntryWins(before, front, i);
    }
  }

  /** The map holds exactly the earlier keys and the ids of the entries. */
  lemma {:induction false} StoredKeys(before: map<string, L.Ledger>, entries: seq<Option<(string, L.Ledger)>>, id: string)
    ensures id in Stored(before, entries) <==>
      id in before || exists j :: 0 <= j < |entries| && entries[j].Some? && entries[j].value.0 == id
    decreases |entries|
  {
    if |entries| > 0 {
      var front := entries[..|entries| - 1];
      StoredKeys(before, front, id);
      if exists j :: 0 <= j < |front| && front[j].Some? && front[j].value.0 == id {
        var j :| 0 <= j < |front| && front[j].Some? && front[j].value.0 == id;
        assert entries[j] == front[j];
      }
      if exists j :: 0 <= j < |entries| && entries[j].Some? && entries[j].value.0 == id {
        var j :| 0 <= j < |entries| && entries[j].Some? && entries[j].value.0 == id;
        if j < |front| {
          assert front[j] == entries[j];
        }
      }
    }
  }

  /** A cell of the content column: a string, or anything else pandas may
      hold there (a missing value, a number). */
  datatype Cell = Str(s: string) | NonStr

  /** A saved `.partN` checkpoint: its number and the map it holds. */
  datatype Checkpoint = Checkpoint(part: nat, contents: map<string, L.Ledger>)

  /** Rows per checkpoint. */
  const SaveInterval: nat := 1000

  /** The dataset run's state: the fixed engines and selection, and the map
      from document id to ledger that `process_resume` writes into. */
  class Run {
    const matcher: Matcher
    const md5: Digest
    const presidioAvailable: bool
    const engines: Option<Engines>
    const selection: Option<seq<string>>
    var organized: map<string, L.Ledger>

    /** Every stored ledger is non-empty and has only non-empty
        duplicate-free lists. */
    ghost predicate Valid()
      reads this
    {
      && Sound(matcher)
      && forall id :: id in organized ==> |organized[id]| > 0 && L.Valid(organized[id])
    }

    constructor(matcher: Matcher, md5: Digest, presidioAvailable: bool, engines: Option<Engines>,
                selection: Option<seq<string>>)
      requires Sound(matcher)
      ensures Valid() && organized == map[]
      ensures this.matcher == matcher && this.md5 == md5 && this.presidioAvailable == presidioAvailable
      ensures this.engines == engines && this.selection == selection
    {
      this.matcher := matcher;
      this.md5 := md5;
      this.presidioAvailable := presidioAvailable;
      this.engines := engines;
      this.selection := selection;
      organized := map[];
    }

    /** The outcome of a non-blank string cell. */
    function OutcomeOf(s: string): Option<Outcome>
      requires Sound(matcher)
    {
      ProcessText(matcher, presidioAvailable, engines, s, selection)
    }

    /** What `process_resume` returns for a cell: the anonymized text, or the
        cell itself when it is not a string, is blank, or its processing
        fails. */
    function Output(cell: Cell): Cell
      requires Sound(matcher)
    {
      match cell
      case NonStr => cell
      case Str(s) =>
        if Text.IsBlank(s) then cell
        else match OutcomeOf(s)
          case None => cell
          case Some(o) => Str(o.text)
    }

    /** The entry a cell stores: its document id and its ledger, when the
        ledger is non-empty. */
    function Entry(cell: Cell): Option<(string, L.Ledger)>
      requires Sound(matcher)
    {
      match cell
      case NonStr => None
      case Str(s) =>
        if Text.IsBlank(s) then None
        else match OutcomeOf(s)
          case None => None
          case Some(o) => if |o.ledger| > 0 then Some((ExtractResumeId(matcher, md5, s), o.ledger)) else None
    }

    /** The entries of a column, one per cell. */
    function Entries(cells: seq<Cell>): (es: seq<Option<(string, L.Ledger)>>)
      requires Sound(matcher)
      ensures |es| == |cells| && forall i :: 0 <= i < |cells| ==> es[i] == Entry(cells[i])
    {
      seq(|cells|, i requires 0 <= i < |cells| => Entry(cells[i]))
    }

    /** An entry is stored exactly for a non-blank string whose processing
        succeeds with a non-empty ledger; it is keyed by the cell's id and
        its ledger is valid. */
    lemma EntryShape(cell: Cell)
      requires Sound(matcher)
      ensures Entry(cell).Some? <==>
        cell.Str? && !Text.IsBlank(cell.s) && OutcomeOf(cell.s).Some? && |OutcomeOf(cell.s).value.ledger| > 0
      ensures Entry(cell).Some? ==>
        && Entry(cell).value.0 == ExtractResumeId(matcher, md5, cell.s)
        && Entry(cell).value.1 == OutcomeOf(cell.s).value.ledger
        && L.Valid(Entry(cell).value.1)
    {
      if Entry(cell).Some? {
        ProcessTextOutcome(matcher, presidioAvailable, engines, cell.s, selection);
      }
    }

    /** `process_resume(resume_content)`: the id is computed before the
        text is processed; a failure returns the cell unchanged and stores
        nothing. */
    method ProcessResume(cell: Cell) returns (out: Cell)
      requires Valid()
      modifies this
      ensures Valid()
      ensures out == Output(cell)
      ensures organized == Stored(old(organized), [Entry(cell)])
    {
      if cell.NonStr? || Text.IsBlank(cell.s) {
        assert Entry(cell).None?;
        return cell;
      }
      out := ProcessContent(cell.s);
    }

    /** The part of `process_resume` that runs for a non-blank string. */
    method ProcessContent(content: string) returns (out: Cell)
      requires Valid() && !Text.IsBlank(content)
      modifies this
      ensures Valid()
      ensures out == Output(Str(content))
      ensures organized == Stored(old(organized), [Entry(Str(content))])
    {
      var resumeId := ExtractResumeId(matcher, md5, content);
      var result := ProcessTextCall(matcher, presidioAvailable, engines, content, selection);
      EntryShape(Str(content));
      var entry := if result.Some? && |result.value.ledger| > 0 then Some((resumeId, result.value.ledger)) else None;
      assert entry == Entry(Str(content));
      Store(entry);
      out := if result.Some? then Str(result.value.text) else Str(content);
    }

    /** `organized_entities[resume_id] = pii_dict`, when there is an entry. */
    method Store(entry: Option<(string, L.Ledger)>)
      requires Valid()
      requires entry.Some? ==> |entry.value.1| > 0 && L.Valid(entry.value.1)
      modifies this
      ensures Valid()
      ensures organized == Stored(old(organized), [entry])
    {
      StoredOne(organized, entry);
      if entry.Some? {
        organized := organized[entry.value.0 := entry.value.1];
      }
    }

    /** `df[content_column].progress_apply(process_resume)`. */
    method ProcessColumn(cells: seq<Cell>) returns (outs: seq<Cell>)
      requires Valid()
      modifies this
      ensures Valid()
      ensures |outs| == |cells| && forall i :: 0 <= i < |cells| ==> outs[i] == Output(cells[i])
      ensures organized == Stored(old(organized), Entries(cells))
    {
      outs := [];
      ghost var es := Entries(cells);
      for i := 0 to |cells|
        invariant Valid()
        invariant |outs| == i && forall j :: 0 <= j < i ==> outs[j] == Output(cells[j])
        invariant organized == Stored(old(organized), es[..i])
      {
        var out := ProcessResume(cells[i]);
        outs := outs + [out];
        StoredStep(old(organized), es, i);
      }
      assert es[..|cells|] == es;
    }

    /** The checkpoint loop `for i in range(0, rows, 1000)`: a part
        `i // 1000` is saved for every `i > 0` when the map is non-empty.
        It runs after every row has been processed, so every part holds the
        same, final map. */
    method SaveCheckpoints(rows: nat) returns (saved: seq<Checkpoint>)
      ensures forall k :: (exists j :: 0 <= j < |saved| && saved[j].part == k) <==>
        |organized| > 0 && 1 <= k && k * SaveInterval < rows
      ensures forall j :: 0 <= j < |saved| ==> saved[j] == Checkpoint(j + 1, organized)
    {
      saved := [];
      var i := 0;
      while i < rows
        invariant i % SaveInterval == 0
        invariant i > 0 ==> i - SaveInterval < rows
        invariant forall j :: 0 <= j < |saved| ==> saved[j] == Checkpoint(j + 1, organized)
        invariant |saved| == if |organized| > 0 && i > 0 then i / SaveInterval - 1 else 0
        decreases rows - i
      {
        if i > 0 && |organized| > 0 {
          saved := saved + [Checkpoint(i / SaveInterval, organized)];
        }
        i := i + SaveInterval;
      }
      forall k ensures (exists j :: 0 <= j < |saved| && saved[j].part == k) <==>
        |organized| > 0 && 1 <= k && k * SaveInterval < rows
      {
        if |organized| > 0 && 1 <= k && k * SaveInterval < rows {
          assert saved[k - 1].part == k;
        }
      }
    }

    /** The processing part of `process_resume_dataset`: the column is
        anonymized first and the checkpoints are written afterwards, so
        every checkpoint holds the final map. */
    method ProcessDataset(cells: seq<Cell>) returns (outs: seq<Cell>, saved: seq<Checkpoint>)
      requires Valid()
      modifies this
      ensures Valid()
      ensures |outs| == |cells| && forall i :: 0 <= i < |cells| ==> outs[i] == Output(cells[i])
      ensures organized == Stored(old(organized), Entries(cells))
      ensures forall j :: 0 <= j < |saved| ==> saved[j] == Checkpoint(j + 1, organized)
      ensures forall k :: (exists j :: 0 <= j < |saved| && saved[j].part == k) <==>
        |organized| > 0 && 1 <= k && k * SaveInterval < |cells|
    {
      outs := ProcessColumn(cells);
      saved := SaveCheckpoints(|cells|);
    }
  }
}
