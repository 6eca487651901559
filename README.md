# Scenario validator model

A Dafny model of the checking core of the Detective-Nocturne scenario
validator (`tools/validate_scenarios.py`). The validator reads one chapter
document at a time: a record with `schema_version`, `id` and an ordered list
of `lines`. It also reads an asset manifest. Each check returns a list of
findings:

- the schema check reports each missing top-level field;
- the line-id check reports lines without an id and repeated ids;
- the jump check reports jump targets no label declares (warnings) and
  labels no jump targets (infos);
- the asset check reports character, expression, background, music, sound
  effect and voice keys that the manifest does not declare;
- the text check reports `text` values that are empty mappings (warnings)
  or neither strings nor mappings (errors).

Like the source, each check is an imperative procedure. It is a `method`
whose loop runs over the lines or over a set of keys and appends findings
step by step. Each method is proved against a specification. For the
line-id check this is a function, `LineIdFindings`, and the counting
properties are proved about it as lemmas. For the other checks the `ensures`
clauses say outright which findings the result contains.

Files and modules:

- `scenario_types.dfy` (`ScenarioTypes`): lines, chapters, the manifest and
  findings. A finding is a datatype value that holds its kind and the key or
  index it names, not the formatted message.
- `schema_check.dfy` (`SchemaCheck`), `line_id_check.dfy` (`LineIdCheck`),
  `jump_check.dfy` (`JumpCheck`), `asset_check.dfy` (`AssetCheck`) and
  `text_check.dfy` (`TextCheck`): one module per check.
- `ref_split.dfy` (`RefSplit`): Python's `str.split('.')` and the
  `character.expression` key encoding.

Modelling decisions:

- A line field read with `line.get(...)` is an `Option<string>`. Python's
  truthiness test ("present and non-empty") is `Truthy` / `Holds`.
- `chapter.get('lines', [])` and `manifest.get(category, {})` treat a missing
  entry as empty (`Lines`, `Characters`, `Registry`).
- Each manifest category keeps its keys, and each character entry its
  expression keys. No other manifest value is read.
- The `type` tag is a `LineKind`. Every tag the validator does not test for,
  and a missing tag, is `OtherKind`.
- The source walks a Python set in an unspecified order. The model picks each
  next element with `:|`, so no order is assumed. Contracts state which
  findings are present and that none repeats. Between blocks the order is
  fixed: undefined jumps come before unused labels, and character findings
  come before background, music, sound and voice findings.
- Character findings also record the collected reference they came from. Two
  references such as `ann.happy` and `ann.sad` can both report the same
  unregistered character `ann`. The source then prints two identical
  messages, and the recorded reference keeps those two findings apart.
- Line 164 only tests that `split('.')` gave two pieces, not that both are
  non-empty. So a bare character `ann.` is checked as character `ann` with
  expression `""`.
- The `.` separator is not escaped. The model keeps the source's behaviour.
  `RefSplit.EncodedRefRoundTrip` proves the key decodes correctly when the
  names contain no `.`. `RefSplit.DottedExpressionSplitsInThree`,
  `RefSplit.DottedCharacterSplitsInTwo` and
  `AssetCheck.DottedExpressionIsReported` show what happens when they do.
- Duplicate label declarations are not reported, as in the source. The label
  set simply absorbs them.

## Model

| member | source | states |
|---|---|---|
| `SchemaCheck.ValidateChapterSchema` | tools/validate_scenarios.py:34-47 | exactly one `MissingField` error for each absent field among `schema_version`, `id`, `lines`; the three tests are independent; no finding repeats; they come in the order `schema_version`, `id`, `lines`; the count equals `CountMissing` |
| `SchemaCheck.CountMissing` | tools/validate_scenarios.py:38-46 | between 0 and 3 fields are missing; 0 exactly when all three are present, 3 exactly when none is |
| `LineIdCheck.FindingsUpTo` | tools/validate_scenarios.py:55-64 | the line-id findings of the first `n` lines, in line order: at most one per line, all errors, each either a `MissingLineId` whose index lies below `n` or a `DuplicateLineId` |
| `LineIdCheck.ValidateLineIds` | tools/validate_scenarios.py:49-66 | the one-pass loop with its `seen_ids` set returns exactly `LineIdFindings` of the chapter's lines (a missing `lines` reads as empty) |
| `LineIdCheck.SeenIdsMembers` | tools/validate_scenarios.py:61-64 | an id is in `seen_ids` after a prefix exactly when some line of that prefix carries it, that is, when it occurs at least once |
| `LineIdCheck.FlaggedIffRepeated` | tools/validate_scenarios.py:61-64 | a line with an id is reported as a duplicate exactly when an earlier line has the same id; a first occurrence is never reported |
| `LineIdCheck.MissingIdReportedOnce` | tools/validate_scenarios.py:56-59 | a line whose id is absent or empty gives exactly one `MissingLineId` naming its 0-based index; any other index gives none |
| `LineIdCheck.DuplicateCount` | tools/validate_scenarios.py:55-64 | an id carried by k > 0 lines gives exactly k - 1 duplicate findings; an id carried by no line gives none |
| `LineIdCheck.MissingReportedIffIdless` | tools/validate_scenarios.py:56-59 | line `i` is reported as missing its id exactly when it exists and has no non-empty id |
| `LineIdCheck.DuplicateReportedIffRepeated` | tools/validate_scenarios.py:61-64 | an id is reported as a duplicate exactly when at least two lines carry it |
| `LineIdCheck.IdlessLineIsTransparent` | tools/validate_scenarios.py:57-59 | a line without an id never enters `seen_ids`: removing it leaves every duplicate count unchanged |
| `LineIdCheck.TwoLinesSameId` | tools/validate_scenarios.py:61-62 | two lines with id `l1` give exactly one finding, which names the duplicate `l1` |
| `JumpCheck.CollectLabelsAndJumps` | tools/validate_scenarios.py:68-87 | `labels` is exactly the set of non-empty `name` values on `label` lines and `jumps` exactly the set of non-empty `target` values on `jump` lines |
| `JumpCheck.ReportUndefinedJumps` | tools/validate_scenarios.py:95-97 | one `UndefinedJump` warning for each element of `jumps - labels`, and nothing else |
| `JumpCheck.ReportUnusedLabels` | tools/validate_scenarios.py:100-102 | one `UnusedLabel` info for each element of `labels - jumps`, and nothing else |
| `JumpCheck.ValidateJumps` | tools/validate_scenarios.py:89-104 | a finding is reported exactly when it is a target with no label or a label with no jump; none repeats; all warnings precede all infos; no name is in both batches; a name both declared and targeted is in neither |
| `JumpCheck.LabelAndStrayJump` | tools/validate_scenarios.py:94-102 | a label `start` and a jump to `missing` owe exactly one undefined-target warning for `missing` and one unused-label info for `start` |
| `RefSplit.Split` | tools/validate_scenarios.py:163 | `str.split('.')` returns at least one piece |
| `RefSplit.SplitJoin` | tools/validate_scenarios.py:163 | splitting loses nothing: joining the pieces with `.` gives back the string, no piece contains `.`, and there is one more piece than there are dots |
| `RefSplit.SplitDotFree` | tools/validate_scenarios.py:163-164 | a dot-free string splits into itself alone, so it takes the bare-key branch |
| `RefSplit.SplitAfterDotFree` | tools/validate_scenarios.py:163 | a dot-free first piece is split off at the first `.` |
| `RefSplit.EncodedRefRoundTrip` | tools/validate_scenarios.py:126 | the key `character.expression` built from two dot-free names splits back into exactly those two names |
| `RefSplit.DottedExpressionSplitsInThree` | tools/validate_scenarios.py:163-164 | `ann.sad.tears` (expression `sad.tears`) splits into three pieces |
| `RefSplit.DottedCharacterSplitsInTwo` | tools/validate_scenarios.py:163-165 | a bare character `dr.who` splits into two pieces and so reads as character `dr` with expression `who` |
| `AssetCheck.CharacterRef` | tools/validate_scenarios.py:121-128 | only a `show_character`, `change_expression` or `hide_character` line with a non-empty `character` contributes a character reference |
| `AssetCheck.AssetRef` | tools/validate_scenarios.py:131-152 | a background, music, sound or voice key comes only from its single matching line type and is never empty |
| `AssetCheck.CollectAssetReferences` | tools/validate_scenarios.py:106-154 | each of the five sets holds exactly the keys that some line contributes to it |
| `AssetCheck.CheckCharacter` | tools/validate_scenarios.py:162-172 | checking one character reference gives at most one finding, and that finding is a character or expression finding for that reference |
| `AssetCheck.CheckCharacters` | tools/validate_scenarios.py:162-172 | every finding `CheckCharacter` gives for some collected character reference, each once, and nothing else |
| `AssetCheck.CheckKeys` | tools/validate_scenarios.py:174-192 | one error per collected key of a category that the manifest category does not declare, and nothing else |
| `AssetCheck.ValidateAssetReferences` | tools/validate_scenarios.py:156-194 | a finding is reported exactly when it is owed for a mentioned reference; all are errors; none repeats; the blocks come in the order characters, bg, bgm, sfx, voice |
| `AssetCheck.CheckCharacterOfPair` | tools/validate_scenarios.py:164-169 | for dot-free names, an unknown character gives exactly one "character not registered" and its expression is not checked; a known character with an unknown expression gives exactly one "expression not registered"; otherwise nothing |
| `AssetCheck.CheckCharacterOfBare` | tools/validate_scenarios.py:170-172 | a dot-free bare character key gives one "character not registered" exactly when the manifest lacks it |
| `AssetCheck.RegisteredLinePasses` | tools/validate_scenarios.py:162-192 | on a line whose assets are all declared (and whose names are dot-free), every key it contributes passes the check |
| `AssetCheck.UnregisteredLineFails` | tools/validate_scenarios.py:162-192 | on a line with an undeclared asset (and dot-free names), some key it contributes fails the check |
| `AssetCheck.RegisteredIffNoFindings` | tools/validate_scenarios.py:156-194 | if no character line's character or expression name contains `.`: a manifest that declares every asset the lines mention gives no finding, and any other manifest gives at least one |
| `AssetCheck.DottedExpressionIsReported` | tools/validate_scenarios.py:162-172 | without the dot-free condition the round trip fails: expression `sad.tears`, although registered, is reported as the unregistered character `ann.sad.tears` |
| `AssetCheck.UnregisteredExpression` | tools/validate_scenarios.py:164-169 | with `ann` registered only with `happy`, a line showing `ann` `sad` owes exactly one finding, "expression not registered", and none about `ann` itself |
| `TextCheck.ValidateTextFields` | tools/validate_scenarios.py:196-211 | an empty mapping gives exactly one warning and a value other than a string or mapping exactly one error, each naming the index and id; an absent text, a string or a non-empty mapping gives nothing; findings are in line order |

## Left out

- `load_json` (file reading, JSON decoding, its error messages): I/O. The
  model starts from an already-decoded chapter and manifest.
- `main`: directory globbing, printing, exit codes, and concatenating each
  chapter's findings into one list. This is I/O glue.
- `PROJECT_ROOT` and all path handling. The chapter file name appears only
  inside message text.
- Message text (emoji, Japanese wording, file name). A finding is its kind
  plus the key or index it names, and `SeverityOf` gives its severity.
- The order in which Python walks a set: left unspecified, as explained above.
- Non-string JSON values in `id`, `name`, `target`, `character`,
  `expression`, `background`, `bgm`, `se` and `voice`. The model treats these
  fields as strings. Python's truthiness of numbers or lists, and the crash on
  an unhashable id, are not modelled.
- Mapping values inside `text`. The source checks only whether the mapping is
  empty, and the model keeps the entries as strings.
- A character entry in the manifest that is not a mapping. A null or a number
  makes line 168 raise, and a string turns `in` into a substring test.
- Malformed documents that would crash the source: a `lines` that is not a
  list, a line that is not an object, or a manifest category that is null.
