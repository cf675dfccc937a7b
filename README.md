# Resume PII anonymization: a Dafny model

This project models the anonymization core of a resume-screening system.

`Dataset/desenstive_resume.py` removes personal information from resume texts before they are used for training. For each document it:

- derives a stable document id (`extract_resume_id`);
- replaces personal data in the text, either through the external analyzer/anonymizer engines (`presidio_anonymize_text`) or through an ordered table of regular-expression rules (`basic_anonymize_text`);
- records each removed value, per entity type, in a duplicate-free ledger (`pii_entities`);
- keeps the non-empty ledgers in a map keyed by document id (`organized_entities`), which is saved in `.partN` checkpoints.

`model.py`'s `scrub` lower-cases a text and masks e-mail addresses and long digit runs.

The model is split into these modules:

| module | what it holds |
|---|---|
| `Text` | Python's `strip`, `lower`, slicing and `str.replace` |
| `Patterns` | the regular expressions the engine uses |
| `Matching` | the regex engine as a parameter: a `Matcher` returns the `finditer` matches, and `Search` is the first of them |
| `Categories` | the eighteen entity types of `SENSITIVE_INFO_TYPES` and the "one block per selected type" pattern shared by the recognizer catalogue and the rule table |
| `Recognizers` | `configure_resume_recognizers` |
| `Ledger` | the duplicate-free ledger |
| `ResumeId` | `extract_resume_id` |
| `Additional` | `extract_additional_pii` |
| `Basic` | `basic_anonymize_text` |
| `Presidio` | `presidio_anonymize_text` |
| `Pipeline` | `process_text`, and the `Run` class, which holds `organized_entities`, `process_resume`, the column loop and the checkpoint loop |
| `Scrub` | `scrub` |

The following are parameters of the model and are never interpreted:

- The regex engine. A `Matcher` is only constrained by `Sound`: matches lie inside the text, have the declared number of groups and come in order.
- MD5 is a `Digest` function from text to hex digest.
- The analyzer and the anonymizer are functions that return `None` where the library would raise.

The two patterns of `scrub` are simple enough to be given exact semantics. They are modelled as scans, and lemmas tie each scan's decision to the regex's match relation.

## Model

| member | source | states |
|---|---|---|
| Categories.ParseName | Dataset/desenstive_resume.py:32-51 | every key of the type table is read back as the type it names |
| Categories.ParsedIsName | Dataset/desenstive_resume.py:32-51 | a string is recognised as a type only if it is exactly that type's key, so no other selection string matches a branch |
| Categories.NameInjective | Dataset/desenstive_resume.py:32-51 | no two types share a key |
| Categories.Index | Dataset/desenstive_resume.py:32-51 | every type occurs in the table of all eighteen types, at the returned position |
| Categories.AllNames | Dataset/desenstive_resume.py:69-70 | the default selection `list(SENSITIVE_INFO_TYPES.keys())` has eighteen keys, holds every type's key and only keys of types |
| Categories.Rank | Dataset/desenstive_resume.py:75-398 | the position of a type's branch in the catalogue; types without a branch rank after all branches |
| Categories.RankOfOrder | Dataset/desenstive_resume.py:75-398 | the i-th branch of the catalogue has rank i |
| Categories.PickIgnoresUnknown | Dataset/desenstive_resume.py:75-398 | appending selection strings that are not type keys changes nothing in what the `if "X" in selected_types` chain collects |
| Categories.PickDependsOnNamedKeys | Dataset/desenstive_resume.py:75-398 | the chain's result depends only on which type keys are in the selection, not on their order or repetition |
| Categories.PickMembership | Dataset/desenstive_resume.py:75-398 | an item is collected exactly when it belongs to the block of some branch whose type is selected |
| Categories.PickRanked | Dataset/desenstive_resume.py:75-398 | each collected item comes from the block of a selected type that has a branch |
| Categories.PickAscending | Dataset/desenstive_resume.py:75-398 | when every block has at most one item, the collected items follow the branch order strictly |
| Categories.PickComplete | Dataset/desenstive_resume.py:75-398 | every selected type with a non-empty block contributes an item |
| Categories.PickAll | Dataset/desenstive_resume.py:69-70 | with every key selected, the chain collects every block in catalogue order |
| Recognizers.ConfigureRecognizers | Dataset/desenstive_resume.py:55-400 | without the engine library the list is empty; otherwise it is the catalogue restricted to the selection (all keys when none is given) |
| Recognizers.RecognizerOfKeyed | Dataset/desenstive_resume.py:75-398 | each branch builds at most one recognizer, for its own type, and exactly the thirteen types with a branch have one |
| Recognizers.ConfiguredExactlyOnce | Dataset/desenstive_resume.py:75-400 | each configured recognizer is the one of a selected type, the types come in branch order with no repetition, and every selected type with a branch is present |
| Recognizers.AllTypesGiveWholeCatalogue | Dataset/desenstive_resume.py:69-70 | selecting every type yields all thirteen recognizers in catalogue order |
| Recognizers.BlocksAreTheCatalogue | Dataset/desenstive_resume.py:75-398 | the first k branches hold exactly the first k catalogue types, one recognizer each |
| Recognizers.UnknownNamesIgnored | Dataset/desenstive_resume.py:75-398 | unknown strings in the selection leave the configured list unchanged |
| Recognizers.BranchlessSelectionIsEmpty | Dataset/desenstive_resume.py:75-398 | a selection naming only types without a branch, or non-types, configures no recognizer |
| Ledger.Record | Dataset/desenstive_resume.py:690-691 | recording a value keeps every other key, makes the value present under its key, appends it only when it is new, and never removes a value |
| Ledger.RecordValid | Dataset/desenstive_resume.py:690-691 | recording keeps every list non-empty and duplicate-free |
| Ledger.Dedup | Dataset/desenstive_resume.py:690-691 | first-seen deduplication has no duplicates and the same members as its input |
| Ledger.DedupOfNoDup | Dataset/desenstive_resume.py:690-691 | deduplicating a duplicate-free list leaves it unchanged |
| Ledger.DedupSnoc | Dataset/desenstive_resume.py:690-691 | appending a value extends the deduplicated list only when the value is new |
| Ledger.RecordEachIsDedup | Dataset/desenstive_resume.py:686-701 | recording a run of values one by one leaves, under the key, the first-seen deduplication of the old list followed by the run |
| Ledger.RecordIsDedupStep | Dataset/desenstive_resume.py:690-691 | one recording is one step of first-seen deduplication |
| Ledger.DedupAppend | Dataset/desenstive_resume.py:690-691 | deduplicating part of a list first and the rest later gives the same result as deduplicating it whole |
| Matching.Search | Dataset/desenstive_resume.py:430 | `re.search` yields the leftmost of the `finditer` matches, inside the text, and no match exactly when there is none |
| Text.Strip | Dataset/desenstive_resume.py:548 | the stripped text occurs in the original, is no longer, and neither begins nor ends with whitespace |
| Text.StripDropsOnlySpace | Dataset/desenstive_resume.py:548 | the stripped text is the stretch of the original between a whitespace-only prefix and a whitespace-only suffix |
| Text.BlankIsAllSpace | Dataset/desenstive_resume.py:548 | a text counts as blank exactly when every character of it is whitespace |
| Text.StripLeftSuffix | Dataset/desenstive_resume.py:548 | stripping on the left keeps a suffix of the text and drops only whitespace |
| Text.StripRightPrefix | Dataset/desenstive_resume.py:548 | stripping on the right keeps a prefix of the text and drops only whitespace |
| Text.PySlice | Dataset/desenstive_resume.py:775 | Python slicing with clamped bounds: the exact slice when both bounds are in range, the tail from the start bound when only the end bound is past the text, and empty when the bounds cross or the start is past the text |
| Text.Split | Dataset/desenstive_resume.py:703 | splitting at a non-empty separator yields at least one piece |
| Text.ReplaceAllIsJoinOfSplit | Dataset/desenstive_resume.py:696-703 | `str.replace` equals splitting at the target and joining with the replacement |
| Text.ReplaceAllSelf | Dataset/desenstive_resume.py:696-703 | replacing a target by itself leaves the text unchanged |
| Text.SplitJoinRoundTrip | Dataset/desenstive_resume.py:696-703 | splitting at a separator and joining with it gives the text back |
| Text.SplitPiecesAreFree | Dataset/desenstive_resume.py:696-703 | no piece of a split contains the separator, so after the replacement no original occurrence is left |
| Text.SplitPrefixOfText | Dataset/desenstive_resume.py:696-703 | the first piece of a split is a prefix of the text |
| Text.ReplaceAllAbsent | Dataset/desenstive_resume.py:696-703 | replacing a target that does not occur leaves the text unchanged |
| ResumeId.IdStructure | Dataset/desenstive_resume.py:419-442 | the id is its origin's prefix (`email-`, `name-`, `resume-`) followed by the first 8, 8 or 12 characters of the digest of the first e-mail match, else the first name match, else the whole text |
| ResumeId.ParseIdRoundTrip | Dataset/desenstive_resume.py:419-442 | every id can be read back to its origin and its digest part |
| ResumeId.IdShape | Dataset/desenstive_resume.py:419-442 | when the digest is 32 lower-case hex digits, the id is the prefix followed by exactly 8, 8 or 12 lower-case hex digits |
| ResumeId.SameEmailSameId | Dataset/desenstive_resume.py:430-433 | two documents whose first e-mail match is the same address get the same id, whatever else they contain |
| Additional.ExtractAdditionalPii | Dataset/desenstive_resume.py:446-533 | the method computes the five probes' candidates in order |
| Additional.FromGroupFits | Dataset/desenstive_resume.py:459-531 | each candidate carries its type and its score (0.9 for date of birth and gender, 0.8 for the photo, 0.85 otherwise, kept as hundredths), and its end minus its start is the length of its text |
| Additional.FromGroupPlaced | Dataset/desenstive_resume.py:459-531 | a candidate taken from a match lies inside the text and starts where its capture group starts |
| Additional.FoundTypes | Dataset/desenstive_resume.py:459-531 | a probe yields nothing when its pattern does not match, and otherwise one candidate per type it serves, in order |
| Additional.FoundPlaced | Dataset/desenstive_resume.py:459-531 | every candidate of a probe is well placed in the text |
| Additional.FoundSlots | Dataset/desenstive_resume.py:459-531 | the date-of-birth probe yields at most two candidates and every other probe at most one, each in its fixed output position |
| Additional.GatheredBound | Dataset/desenstive_resume.py:446-533 | the first k probes yield at most k+1 candidates, none of a later probe's type |
| Additional.GatheredOrdered | Dataset/desenstive_resume.py:446-533 | the candidates come in the order date of birth, gender, family, marital status, nationality, photo, with no type repeated |
| Additional.GatheredPlaced | Dataset/desenstive_resume.py:446-533 | every gathered candidate is well placed |
| Additional.FoundPresence | Dataset/desenstive_resume.py:459-531 | a probe yields a candidate of a type exactly when it is that type's probe and its pattern matches |
| Additional.GatheredPresence | Dataset/desenstive_resume.py:446-533 | a type appears among the first k probes' candidates exactly when its probe is among them and matches |
| Additional.SupplementaryShape | Dataset/desenstive_resume.py:446-533 | the extractor returns at most six candidates, all well placed, in the fixed type order |
| Additional.SupplementaryPresence | Dataset/desenstive_resume.py:446-533 | each of the six types appears exactly when its pattern matches the text |
| Additional.DobWithGender | Dataset/desenstive_resume.py:459-481 | a date of birth is reported exactly when a gender is |
| Basic.Block | Dataset/desenstive_resume.py:562-682 | a rule block has one rule per pattern, all of the block's type |
| Basic.BasicAnonymize | Dataset/desenstive_resume.py:537-705 | the method computes the basic anonymizer's outcome; it returns nothing exactly when the text is not blank and ADDRESS is not selected, since the whole rule loop sits inside that branch |
| Basic.BuildRules | Dataset/desenstive_resume.py:559-682 | the rule list exists exactly when ADDRESS is selected, and then it is the selected types' blocks in table order |
| Basic.ApplyAll | Dataset/desenstive_resume.py:684-703 | the loop applies the rules in order, starting from the text and an empty ledger |
| Basic.ApplyRuleMatches | Dataset/desenstive_resume.py:685-703 | the inner loop applies every match that was found in the text before the rule ran |
| Basic.RuleCategory | Dataset/desenstive_resume.py:562-682 | every rule of a type's block records under that type |
| Basic.RuleBlockIffBranch | Dataset/desenstive_resume.py:562-682 | a type has rules exactly when it has a recognizer branch |
| Basic.RulesOfSelection | Dataset/desenstive_resume.py:559-682 | a rule is in the list exactly when its type is selected |
| Basic.ApplyMatchesLedger | Dataset/desenstive_resume.py:686-701 | the ledger after a rule's matches is the old ledger with those values recorded in order under the rule's key |
| Basic.RuleRecordsFirstSeen | Dataset/desenstive_resume.py:686-701 | the rule's key is present afterwards exactly when it was before or the rule matched, and its list is the first-seen deduplication of the old list followed by the matches' values |
| Basic.ApplyMatchesKeys | Dataset/desenstive_resume.py:686-701 | a rule adds only its own key, and only when it matched, and leaves every other key's list alone |
| Basic.ApplyMatchesValid | Dataset/desenstive_resume.py:686-701 | applying a rule keeps every ledger list non-empty and duplicate-free |
| Basic.ApplyRulesValid | Dataset/desenstive_resume.py:684-703 | applying a rule list keeps every ledger list non-empty and duplicate-free |
| Basic.ApplyRulesKeys | Dataset/desenstive_resume.py:684-703 | every key in the result was there before or is the key of one of the rules |
| Basic.ApplyMatchRewritesEverywhere | Dataset/desenstive_resume.py:694-703 | applying a match rewrites every occurrence of the matched text in the current text, not only the matched one |
| Basic.StaleMatchKeepsText | Dataset/desenstive_resume.py:694-703 | a match whose text an earlier replacement already removed leaves the text unchanged, though its value is still recorded |
| Basic.ApplyRulesNoMatch | Dataset/desenstive_resume.py:684-703 | rules that match nothing change neither the text nor the ledger |
| Basic.ApplyRulesAppend | Dataset/desenstive_resume.py:684-703 | applying two rule lists one after the other is applying their concatenation |
| Basic.DefaultSelectionRuns | Dataset/desenstive_resume.py:552-553 | without a selection the basic anonymizer always returns an outcome |
| Basic.BasicFails | Dataset/desenstive_resume.py:548-705 | the basic anonymizer returns nothing exactly when the text is not blank and ADDRESS is not selected |
| Basic.BasicValid | Dataset/desenstive_resume.py:548-705 | a returned ledger has only non-empty duplicate-free lists |
| Basic.BasicLedger | Dataset/desenstive_resume.py:548-705 | every key of a returned ledger is the lower-cased key of a selected type that has rules |
| Basic.BasicNoMatch | Dataset/desenstive_resume.py:620-705 | when ADDRESS is selected and no selected rule matches, the text comes back unchanged with an empty ledger |
| Presidio.RequestedEntities | Dataset/desenstive_resume.py:730-747 | the requested entity list is the built-in types followed by every other selected key |
| Presidio.RequestBuiltIns | Dataset/desenstive_resume.py:733-742 | the built-in part maps PERSON_NAME to PERSON and NRP and keeps EMAIL_ADDRESS, PHONE_NUMBER, ADDRESS and LOCATION, in that order |
| Presidio.PassThroughMembers | Dataset/desenstive_resume.py:745-747 | a string is passed through exactly when it is selected and is not one of the five built-in keys |
| Presidio.RequestedMembers | Dataset/desenstive_resume.py:730-747 | a type is requested exactly when it is selected and is not PERSON_NAME, or it is PERSON or NRP and PERSON_NAME is selected |
| Presidio.KeptMembers | Dataset/desenstive_resume.py:758-770 | an extra result is added exactly when it comes from a candidate whose type is selected |
| Presidio.KeptSelected | Dataset/desenstive_resume.py:758-770 | every added result has a known type whose key is selected |
| Presidio.CollectedStep | Dataset/desenstive_resume.py:774-778 | collecting one more result records its slice under its lower-cased type |
| Presidio.CollectedValid | Dataset/desenstive_resume.py:773-778 | the collected ledger has only non-empty duplicate-free lists |
| Presidio.CollectedKeys | Dataset/desenstive_resume.py:773-778 | a key is in the collected ledger exactly when some result's lower-cased type is that key |
| Presidio.SpansSnoc | Dataset/desenstive_resume.py:774-778 | the spans of a list of results are the spans of its front plus the slice of its last result |
| Presidio.CollectedValues | Dataset/desenstive_resume.py:773-778 | a value is listed under a key exactly when some result of that type has that text slice |
| Presidio.OperatorDefaults | Dataset/desenstive_resume.py:781-802 | unknown types are replaced by `<REDACTED>` and the three person types by `<NAME>` |
| Presidio.OperatorsCoverCategories | Dataset/desenstive_resume.py:781-802 | every one of the eighteen types has its own replacement, distinct from the default |
| Presidio.RequestedHaveOperators | Dataset/desenstive_resume.py:730-802 | when the selection holds only type keys, every requested entity has its own replacement |
| Presidio.PresidioAnonymize | Dataset/desenstive_resume.py:708-820 | the method computes the engine path's outcome: the text unchanged when blank, otherwise the engines' result or the basic fallback |
| Presidio.TryEngines | Dataset/desenstive_resume.py:728-812 | the body of the `try` is computed step by step and fails when either engine raises |
| Presidio.AppendKept | Dataset/desenstive_resume.py:758-770 | the analyzer's results are followed by the selected extra results, in order |
| Presidio.CollectEntities | Dataset/desenstive_resume.py:773-778 | the collection loop builds the collected ledger |
| Presidio.AnalyzerFailureFallsBack | Dataset/desenstive_resume.py:813-820 | for a non-blank text, when the analyzer raises, the result is exactly the basic anonymizer's result for the same text and selection |
| Presidio.AnonymizerFailureFallsBack | Dataset/desenstive_resume.py:813-820 | for a non-blank text, when the anonymizer raises, the result is exactly the basic anonymizer's result for the same text and selection |
| Presidio.SuccessLedger | Dataset/desenstive_resume.py:750-812 | when both engines succeed, the text is the anonymizer's output and the ledger collects every analyzer and extra result; every extra result is of a selected type |
| Presidio.PresidioFails | Dataset/desenstive_resume.py:721-820 | the engine path returns nothing exactly when the text is not blank, the engines fail and ADDRESS is not selected |
| Presidio.AttemptLedger | Dataset/desenstive_resume.py:773-812 | a successful engine attempt gives a ledger with only non-empty duplicate-free lists |
| Presidio.PresidioLedger | Dataset/desenstive_resume.py:708-820 | whichever path produced it, the ledger has only non-empty duplicate-free lists |
| Pipeline.ProcessTextOutcome | Dataset/desenstive_resume.py:823-852 | a document yields no outcome exactly when it is not blank, ADDRESS is not selected and the basic anonymizer runs (no library, no engines, or the engines raised); otherwise its ledger is valid |
| Pipeline.DefaultSelectionNeverFails | Dataset/desenstive_resume.py:823-852 | without a selection every document gets an outcome |
| Pipeline.ProcessTextCall | Dataset/desenstive_resume.py:836-845 | the dispatch calls the engine path when the library and both engines are there, and the basic anonymizer otherwise |
| Pipeline.StoredOne | Dataset/desenstive_resume.py:936-937 | storing one entry sets its id's ledger and leaves the map alone when there is no entry |
| Pipeline.StoredStep | Dataset/desenstive_resume.py:936-945 | storing one more entry extends the map stored so far |
| Pipeline.LaterEntryWins | Dataset/desenstive_resume.py:936-945 | an id's final ledger is that of its last document, which overwrites earlier ones |
| Pipeline.StoredKeys | Dataset/desenstive_resume.py:936-945 | an id is in the final map exactly when it was there before or some document with a non-empty ledger has it |
| Pipeline.Run.constructor | Dataset/desenstive_resume.py:893 | a run starts with an empty map |
| Pipeline.Run.EntryShape | Dataset/desenstive_resume.py:925-939 | a cell stores an entry exactly when it is a non-blank string whose outcome has a non-empty ledger; the entry is its id and that ledger |
| Pipeline.Run.ProcessResume | Dataset/desenstive_resume.py:925-942 | the cell's output is its anonymized text, or the cell itself when it is not a string, is blank or fails; the map gains the cell's entry and stays valid |
| Pipeline.Run.ProcessContent | Dataset/desenstive_resume.py:929-942 | a non-blank string is anonymized and its entry stored |
| Pipeline.Run.Store | Dataset/desenstive_resume.py:936-937 | storing an entry with a non-empty valid ledger keeps the map valid |
| Pipeline.Run.ProcessColumn | Dataset/desenstive_resume.py:945 | every cell gets its output, in place, and the map is the old one with every cell's entry stored in order |
| Pipeline.Run.SaveCheckpoints | Dataset/desenstive_resume.py:955-958 | parts 1 … are saved for every full interval of 1000 rows short of the row count, only when the map is non-empty, each holding the whole map |
| Pipeline.Run.ProcessDataset | Dataset/desenstive_resume.py:925-958 | the column is processed first and the checkpoints are then saved from the final map |
| Scrub.EmailRunMatch | model.py:14 | within a whitespace-free run, `\S+@\S+` matches exactly when the run has an `@` that is neither first nor last, and then it matches the whole run |
| Scrub.EmailScanSplit | model.py:14 | the e-mail scan treats each whitespace character as a boundary |
| Scrub.EmailPassSplit | model.py:14 | the e-mail pass works word by word across whitespace |
| Scrub.EmailScanRun | model.py:14 | the scan of a whitespace-free run decides on the whole run |
| Scrub.EmailPassRun | model.py:14 | a word becomes `<EMAIL>` exactly when it has an inner `@`, and is otherwise kept |
| Scrub.EmailScanNoAt | model.py:14 | the scan keeps a text without `@` unchanged |
| Scrub.EmailPassNoAt | model.py:14 | a text without `@` goes through the e-mail pass unchanged |
| Scrub.EmailPassSpaces | model.py:14 | the e-mail pass keeps every whitespace character, in order |
| Scrub.PhoneRunMatch | model.py:15 | in a maximal digit run, `\b\d{10,}\b` matches exactly when the run has at least ten digits, and only the whole run |
| Scrub.PhoneScanSplit | model.py:15 | the phone scan treats each non-word character as a boundary |
| Scrub.PhonePassSplit | model.py:15 | the phone pass works piece by piece across non-word characters |
| Scrub.PhonePassDigits | model.py:15 | a lone digit run becomes `<PHONE>` exactly when it has at least ten digits |
| Scrub.PhonePassGluedAfter | model.py:15 | a digit run followed directly by a letter or `_` is kept, since no word boundary ends it |
| Scrub.PhonePassWord | model.py:15 | a word made of letters, digits and underscores that is not all digits is kept whole, wherever its digit runs sit in it |
| Scrub.PhonePassNoLongRun | model.py:15 | a text without ten consecutive digits goes through the phone pass unchanged |
| Scrub.PhonePassSpaces | model.py:15 | the phone pass keeps every whitespace character, in order |
| Scrub.LowerIdempotent | model.py:13 | lower-casing twice is lower-casing once |
| Scrub.ScrubIgnoresCase | model.py:11-16 | scrubbing a lower-cased text gives the same result as scrubbing the original |
| Scrub.ScrubSplit | model.py:11-16 | scrubbing works word by word across whitespace |
| Scrub.ScrubToken | model.py:11-16 | a word with an inner `@` becomes `<EMAIL>`, and any other word goes only through the phone pass |
| Scrub.ScrubDigits | model.py:11-16 | a lone digit run becomes `<PHONE>` exactly when it has at least ten digits |
| Scrub.ScrubSpaces | model.py:11-16 | scrubbing keeps the text's whitespace characters, in order |
| Scrub.ScrubOnlyLowers | model.py:11-16 | a text without `@` and without ten consecutive digits is only lower-cased |

## Left out

- Regular-expression semantics of the engine's patterns. `Matcher` is a parameter constrained only by `Sound`. The model therefore does not decide what any pattern of the rule table, the extractor or the id derivation matches; the patterns' texts are kept in `Patterns` as data.
- MD5. `hashlib.md5(...).hexdigest()` is the `Digest` parameter; `IdShape` assumes only that it yields 32 lower-case hex digits.
- The analyzer and anonymizer engines. `AnalyzerEngine.analyze` and `AnonymizerEngine.anonymize` are opaque functions. What the configured recognizers then find, and how operators rewrite the text, is left to them.
- `init_engines`. Engine construction is outside the model: the run takes the engines, or `None`, as a given.
- What the recognizers find. Each configured recognizer carries its entity type, its patterns with their names and scores, and its context words, as data taken from the catalogue; only their effect on what the analyzer finds is left out, since the analyzer is a parameter.
- File input and output: reading the CSV, sampling rows, merging columns into `combined_content`, writing the output CSV and the final JSON, and the statistics printed at the end. A column is a sequence of cells, and a checkpoint is its part number with the map it would write.
- Console output: `print` and `traceback.print_exc`.
- The key order of Python dictionaries in the ledgers and in `organized_entities`. Maps are unordered in the model.
- `process_text`'s own `except` branch. No operation in the model raises, so that branch is unreachable here.
- The `except` branch of `process_resume` is modelled only for the failure that can occur: unpacking the basic anonymizer's missing return value when ADDRESS is not selected.
- The `not isinstance(text, str)` guards of `basic_anonymize_text`, `presidio_anonymize_text` and `process_text`. Their text parameter is a string in the model; a non-string reaches the model only through `process_resume`, whose guard is modelled by the `NonStr` cell.
- Unicode. `str.lower()` and `\s`/`\d`/`\w` are ASCII-only in the model; Python's Unicode case mappings, some of which change a string's length, are not modelled.
- `tokenise_batch` and the model loading in `model.py`. They are outside the anonymization core; `Interface.py` and `train.py` are not part of this model.
