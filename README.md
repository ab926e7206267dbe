# get-shit-done: the markdown state store, in Dafny

get-shit-done keeps a project's planning state in hand-written markdown
files under `.planning/`: STATE.md (current position and free-form
sections), ROADMAP.md (a progress ledger of phases), PLAN.md files with
YAML-like frontmatter, config.json, PROJECT.md, VERIFICATION.md and UAT.md.
It reads these with small regex-driven parsers and edits them with targeted
read-modify-write rewriters. Around them sit a few naming and arithmetic
rules, a must-have checker and two gated agent pipelines.

This project models that core in Dafny and proves what the code promises:

- **Readers** (`StateRead`, `PlanFrontmatter`, `Config`): the heading splitter, the
  "Current Position" parser, the progress ledger parser, the frontmatter parser and
  the defaults overlay.
- **Writers** (`StateWrite`): the four edits, each a function
  `content -> Result<content>`. Proofs cover the error on a missing target and
  byte-identical text outside the edit. The section edit is proved to read back
  through `parseSections`. The ledger and checkbox writers as written can miss the
  row or line the readers see (a padded `01.` row; a quoted copy of a checkbox line
  above it, see "## Findings"); the corrected writers `UpdateRoadmapProgressFixed`
  and `UpdatePlanCheckbox` are proved to rewrite exactly that row or line, and the
  checkbox edit is idempotent and undoable.
- **Templates and naming** (`StateInit`, `ProjectInit`): the progress bar, `slugify`,
  phase directory names, the create-or-skip loop, and the STATE.md and PROJECT.md
  templates. The Current Position block of the STATE.md template is proved to read
  back through `parseStatePosition`; PROJECT.md is proved to list each item in place.
- **Work verification** (`VerifyWork`, `ArtifactCheck`, `VerifyReport`, `VerifyOutput`):
  - the must-haves state machine;
  - the STUB / PARTIAL / SUBSTANTIVE decision;
  - the list of testable deliveries read from a SUMMARY.md;
  - the VERIFICATION.md and UAT.md formatters and their counts.
- **Pipelines** (`MapCodebase`, `PlanPhase`, `DiscussPhase`):
  - the codebase-mapper table and its success rule;
  - the research → planning → checking pipeline with its gates;
  - the phase-detail extraction from ROADMAP.md.

Shared text primitives live in `Text` (whitespace as JavaScript's `\s`/`trim` sees it,
`split('\n')`/`join('\n')`, digit runs, leftmost search), with `Lines` for
line-oriented lemmas and `Wrappers` for `Option`/`Result`.

Conventions of the model:

- A document is a `string`; a file read is an `Ok`/`Err` input and a file write is
  the returned content.
- Line-anchored regexes (`m` flag) are modelled on the lines of
  `split('\n')`, except where `\s` in the pattern can cross a line end: the
  heading pattern of `parseSections` (`StateRead.Normalize` folds such a match into
  one heading line), the frontmatter list field and the phase heading of
  `getPhaseDetails` are modelled on the whole text. Unanchored ones are modelled position by position, with their
  greedy or lazy semantics written out (`CountsAt`, `CloseParen`, `NamedRest`, …).
- Agent processes are oracles: a predicate saying which output paths exist once a stage's agent has finished.
- Stub-detection regexes are an uninterpreted predicate parameter.
- Integers are unbounded naturals; `Math.round(100·c/t)` is integer round-half-up
  `(200c + t) / (2t)`.

## Model

| member | source | states |
|---|---|---|
| StateRead.ParseSections | src/state-read.js:26-60 | the loop returns exactly `Sections(content, level)`: the trimmed preamble under `_preamble` when it is non-empty, and each heading's name mapped to its trimmed body, a later duplicate name overwriting an earlier one; a bare `##` line whose `\s+` runs over the line end is a heading named by the next non-blank line |
| StateRead.NoHeadingIsPreamble | src/state-read.js:35-42 | with no heading line of the level, the map is `{_preamble: trimmed text}` when that text is non-empty and empty otherwise |
| StateRead.PreambleBefore | src/state-read.js:44-48 | the preamble is made of the lines before the first heading, which come before any heading line of the document |
| StateRead.SectionBody | src/state-read.js:50-57 | a heading whose name no later heading repeats maps to the trimmed text up to the next heading of the same level; deeper headings stay inside the body |
| StateRead.SectionsAround | src/state-read.js:50-57 | cutting a document around one section: the parsed map is what the lines before and after contribute, updated with that section's name and body |
| StateRead.TopGroupsHeads | src/state-read.js:30-33 | every section key comes from a heading line of the document matching `^#{level}(?!#)\s+` |
| StateRead.FoldLookup | src/state-read.js:56 | under successive `sections[name] = body`, the last assignment to a key decides its value |
| StateRead.NormalizePlain | src/state-read.js:30-33 | without a bare `##` marker line every heading match lies within one line, so the matches are exactly the heading lines of `split('\n')` |
| StateRead.BareMarkerNamed | src/state-read.js:30-33 | a bare `##` line followed by blank lines and then a non-blank line is one heading, named by that line trimmed; the lines up to it are consumed by the match |
| StateRead.MarkerExample | src/state-read.js:30-33 | an example: `##\nfoo\nbar` parses as the one section `foo` with body `bar` |
| StateRead.ParseStatePosition | src/state-read.js:75-102 | `null` exactly when no position holds a `Phase: N of M` match; otherwise an absent Plan, Status, Last activity or Progress field gives `0 of 0`, `null`, `null` or `0` |
| StateRead.FirstMatchLeftmost | src/state-read.js:77-90 | `String.match` returns the leftmost match of each field's pattern; `None` means no position matches |
| StateRead.CountsMatch | src/state-read.js:77-81 | a Phase or Plan match carries its two counts right after the label |
| StateRead.CountsAt | src/state-read.js:77 | `\s*(\d+)\s+of\s+(\d+)` captures two non-empty digit runs and ends inside the text |
| StateRead.CloseParen | src/state-read.js:77 | the lazy name `(.+?)\)` ends at a `)` with no line terminator before it |
| StateRead.LineValueAt | src/state-read.js:84-87 | the capture of `\s*(.+)` stays on one line and runs to the end of that line |
| StateRead.ProgressAt | src/state-read.js:90 | the progress capture is a non-empty digit run followed by `%` |
| StateRead.FirstRowLeftmost | src/state-read.js:114-121 | each `rowRegex.exec` finds the leftmost ledger row; `None` means no row matches after the position |
| StateRead.RestAt | src/state-read.js:114 | the counts, status and date cells start at the name's closing bar and the match ends past it |
| StateRead.DateEnd | src/state-read.js:114 | the lazy date `(.*?)\s*\|` ends where only blanks stand between it and a `\|` |
| StateRead.SumAppend | src/state-read.js:134-135 | pushing a row adds its totals and completions to the sums |
| StateRead.ParseRoadmapProgress | src/state-read.js:113-139 | the loop returns every ledger row in document order (`Rows(content)`) and the plan totals summed over them |
| PlanFrontmatter.BlockStart | src/state-read.js:155 | a block can start only on a document opening with `---` |
| PlanFrontmatter.FrontTextLeftmost | src/state-read.js:155-156 | the lazy `([\s\S]*?)` ends at the first closing `\r?\n---`; there is no frontmatter (null) exactly when the opening is missing or no closing delimiter follows |
| PlanFrontmatter.FrontTextOf | src/state-read.js:155 | `---\n` + text + `\n---` + anything reads back exactly that text, when the text holds no closing delimiter of its own |
| PlanFrontmatter.TypedRender | src/state-read.js:167-181 | `true`/`false` read as booleans, digit runs as integers, anything else as the trimmed string: rendering a scalar and reading it back gives the scalar |
| PlanFrontmatter.ScalarLineReads | src/state-read.js:165-181 | a first line `key: value` gives the typed value |
| PlanFrontmatter.ScalarFieldAtStart | src/state-read.js:165-167 | a `key:` at the start with a one-line value is the field the `m`-anchored search finds, trimmed and typed |
| PlanFrontmatter.InlineRoundTrip | src/state-read.js:193-199 | the inline form `[a, b]` reads back the items it was written from: slice off the brackets, split on `,`, trim, strip one quote at each end |
| PlanFrontmatter.InlineLineReads | src/state-read.js:188-199 | a first line `key: [a, b]` gives exactly those items |
| PlanFrontmatter.ValueLineRaw | src/state-read.js:188-190 | a first line `key: raw` with a trimmed one-line `raw` has `raw` as its raw value |
| PlanFrontmatter.EmptyValueRaw | src/state-read.js:188-190 | `key:` with nothing after it on its line has an empty raw value, so the multi-line branch (line 202) runs |
| PlanFrontmatter.FindKeyLine | src/state-read.js:207-208 | the `findIndex` result is a line starting with `key:` |
| PlanFrontmatter.CollectItems | src/state-read.js:209-221 | the item loop computes `MultiLine(lines, key)`: indented `- item` lines are collected, trimmed and unquoted, other indented lines are skipped, and the first unindented line stops it |
| PlanFrontmatter.CollectRun | src/state-read.js:211-219 | a run of item lines followed by a stop line or the end gives exactly those items, after the ones already held |
| PlanFrontmatter.MultiLineItems | src/state-read.js:207-221 | the lines `key:`, then `- item` lines, then an unindented line or nothing: the loop collects exactly the items |
| PlanFrontmatter.MultiLineReads | src/state-read.js:188-221 | in the corrected reading, where the gap after `key:` stays on its line, `key:` followed by indented `- item` lines gives those items, whatever follows them |
| PlanFrontmatter.MultiLineAsWritten | src/state-read.js:188-227 | as written, `\s*` crosses the newline after `key:`, so the list is the single first item line, dash included: `["- " + xs[0]]` |
| PlanFrontmatter.FirstItemRaw | src/state-read.js:188-190 | as written, the raw value of `key:` followed by an item line is that line's text from the dash |
| PlanFrontmatter.ReadScalars | src/state-read.js:162-183 | the scalar loop sets exactly the fields that match, each to its typed value |
| PlanFrontmatter.ReadList | src/state-read.js:189-228 | one list field: the inline, empty-then-multi-line or single-value branch, as `ListOf` defines it |
| PlanFrontmatter.ReadLists | src/state-read.js:186-229 | the list loop sets exactly the list fields that match, each to its parsed items |
| PlanFrontmatter.ParsePlanFrontmatter | src/state-read.js:153-232 | the method computes `PlanFrontmatterOf(content)` |
| PlanFrontmatter.PlanFrontmatterFields | src/state-read.js:153-232 | null exactly without a leading block; otherwise the result holds exactly the known scalar and list fields that occur in the block, each with the value its own pattern reads |
| Config.DefaultsAgree | src/state-read.js:300-324 | the defaults of readPlanningConfig, of writeConfigJson (src/project-init.js:151-175) and of configTemplate are one and the same object with nine keys |
| Config.ArrayProps | src/state-read.js:333 | `Object.keys` of an array-like value lists its indices as decimal strings, element `i` under `"i"` |
| Config.Merged | src/state-read.js:331-345 | the overlay's keys are those of the defaults and of the loaded object |
| Config.Overlay | src/state-read.js:332-345 | the `for (const key of Object.keys(loaded))` loop computes `Merged(base, over)` |
| Config.OverlayStep | src/state-read.js:333-344 | visiting one more key replaces just that key, merged from its base value; every other key is as before |
| Config.ReadPlanningConfig | src/state-read.js:326-354 | a missing file gives the defaults; another read or parse failure gives the `Failed to read config.json` error; `null` (whose keys cannot be listed) gives that error too; any other value gives the overlay of its properties onto the defaults |
| Config.EmptyOverlay | src/state-read.js:332 | nothing to overlay leaves the defaults exactly |
| Config.ReadNothingIsDefaults | src/state-read.js:332-351 | an empty `{}` file reads as the defaults, as a missing one does |
| Config.Unmentioned | src/state-read.js:332-333 | a key the loaded object does not mention keeps its default |
| Config.NonObjectReplaces | src/state-read.js:342-343 | an array, null or scalar for a key replaces the default value whole |
| Config.ScalarOverride | src/project-init.js:190-193 | one scalar preference changes that key and nothing else |
| Config.GroupOverride | src/project-init.js:181-189 | a plain object laid over a default group overrides only the inner keys it names; the group's other keys and every other top-level key keep their defaults |
| Config.OverlayIdempotent | src/project-init.js:178-194 | overlaying the same preferences twice is the same as once |
| Config.WriteConfigJson | src/project-init.js:145-194 | `preferences \|\| {}` decides the object written: a falsy `preferences` (absent, `null`, `false`, `0`, `""`) writes exactly the writer's defaults; any other value has its own properties overlaid onto those defaults |
| ProjectInit.Bullets | src/project-init.js:45-62 | one `- item` per item, in order |
| ProjectInit.ListText | src/project-init.js:45-62 | an absent or empty list shows its placeholder, and, for the parenthesised placeholders PROJECT.md uses, only then; a non-empty list of one-line items splits into one `- item` line per item, in order |
| ProjectInit.DecisionRowsOf | src/project-init.js:67-70 | one `\| decision \| rationale \| outcome \|` row per decision, in order |
| ProjectInit.DecisionsText | src/project-init.js:65-72 | no key decisions give no text at all; otherwise the text splits into one table row line per decision, in input order |
| ProjectInit.ProjectLines | src/project-init.js:74-114 | the template has forty lines, opening with the `# <name>` title and closing with a blank line, `---` and `*Last updated: <date>*`, the date being the project's own or else today |
| ProjectInit.ProjectMd | src/project-init.js:42-114 | PROJECT.md opens with the title line and closes with the rule and the last-updated line |
| ProjectInit.NoDecisions | src/project-init.js:106-112 | without key decisions PROJECT.md's table is its heading, a blank line, the header and rule rows, then an empty line where the rows would be, a blank line and `---` |
| ProjectInit.PartListed | src/project-init.js:74-114 | a part holding a non-empty list, wherever it sits in the document, shows its heading, a blank line and the bullet lines |
| ProjectInit.ConstraintsListed | src/project-init.js:98-104 | PROJECT.md holds `## Constraints`, a blank line and one `- item` line per constraint, right after the context part |
| ProjectInit.DecisionsListed | src/project-init.js:106-110 | PROJECT.md holds the table header and then one row per key decision in input order, right after the constraints part |
| StateWrite.EscapeRegex | src/state-write.js:257-259 | escaping never shortens a name |
| StateWrite.EscapeRegexIsLiteral | src/state-write.js:257-259 | an escaped name is a pattern that matches exactly that name, so names with `.`, `(`, `*` and the like target only their own heading (line 36) |
| StateWrite.EscapeRegexInjective | src/state-write.js:257-259 | two different names never escape to the same pattern |
| StateWrite.FindTarget | src/state-write.js:35-39 | the first line that is exactly `## <name>`, optionally followed by spaces or tabs, with a newline after it; `None` means no such line exists |
| StateWrite.NextEnd | src/state-write.js:49-58 | the section ends at the first later line that ends a section, or at the end of the file |
| StateWrite.UpdateSectionBy | src/state-write.js:29-65 | the edit with either end rule (`NextSameLevel` is the source's `^## (?!#)`, `ReaderHeading` the corrected rule, the reader's heading pattern): it fails, with the error naming the section, exactly when no line is `## <name>` followed by a newline |
| StateWrite.UpdateSectionSplice | src/state-write.js:45-65 | a successful edit keeps everything up to and including the heading line and everything from the section end on byte for byte; the body between becomes `"\n" + trim(newContent) + "\n\n"` |
| StateWrite.TargetIsHeading | src/state-write.js:35-36 | a `## <name>` target line is a level-2 heading that `parseSections` names `name` |
| StateWrite.AgreeingEndsSameEdit | src/state-write.js:49-58 | where the writer's `^## (?!#)` and the reader's heading pattern pick the same lines, the writer as written and the corrected one make the same edit |
| StateWrite.WriterDropsTabSection | src/state-write.js:49 | as written, in `## A`, `x`, `##\tB`, `y` the writer runs A's body to the end of the file, and section B, which the reader sees, is gone |
| StateWrite.UpdateThenRead | src/state-write.js:60-65 | with the corrected end rule, `parseSections` of the edited file gives the trimmed new content under the name and every other section unchanged (new content without a `## ` heading or bare marker, a name heading at most once) |
| StateWrite.EditReads | src/state-write.js:60-65 | the same round trip stated on the document's lines |
| StateWrite.ReplacedSectionReads | src/state-read.js:50-57 | replacing the body lines of one section with heading-free lines changes only that section's entry |
| StateWrite.MatchEnd | src/state-write.js:115-143 | a line pattern's match starts a line with its label and runs to that line's end |
| StateWrite.CountsEnd | src/state-write.js:116-122 | `\s*\d+\s+of\s+\d+.*$` ends at a line end |
| StateWrite.FirstLineMatch | src/state-write.js:115-143 | `String.replace` edits a position where the pattern matches |
| StateWrite.ReplaceFirstSpan | src/state-write.js:115-143 | a text without a match comes back unchanged; otherwise exactly the leftmost match is replaced and all text before and after it is kept |
| StateWrite.PhaseTextNamed | src/state-write.js:112-114 | the Phase line ends with ` (name)` exactly when a name is given, and has no `(` otherwise |
| StateWrite.PositionEdits | src/state-write.js:115-151 | six line edits when a phase name is given, five otherwise |
| StateWrite.FocusOnlyWhenNamed | src/state-write.js:146-151 | the `**Current focus:**` line is among the edits exactly when a phase name is given |
| StateWrite.NoMatchNoEdit | src/state-write.js:115-151 | a text in which none of the patterns matches is written back unchanged, with no error |
| StateWrite.UpdateStatePosition | src/state-write.js:94-158 | an error from the progress bar fails the whole update; otherwise the result is the edits applied in order, each to the first line its pattern matches |
| StateWrite.WriterRowAt | src/state-write.js:182-187 | the writer's row match keeps a non-empty prefix up to its name cell |
| StateWrite.FirstWriterRowLeftmost | src/state-write.js:187 | `content.match(rowRegex)` finds the leftmost row of phase `n`; `None` means there is none |
| StateWrite.WriterRowIsRow | src/state-write.js:182-185 | the writer's pattern matches exactly where `parseRoadmapProgress`'s row pattern matches with `n` written as `String(n)`, and then over the same text and for the same phase number |
| StateWrite.UpdateRoadmapProgress | src/state-write.js:175-196 | as written: the error names the phase exactly when the pattern `\|\s*n\.` finds no row; otherwise the text up to and including the name cell and all text after the row are kept, and the rest of the row becomes ` c/t \| status \| date \|` with `-` for a missing date |
| StateWrite.PhaseRowIsRow | src/state-write.js:182-185 | the corrected row pattern matches exactly where `parseRoadmapProgress` reads a row whose number is `n`, leading zeros included, and to the same end |
| StateWrite.WriterRowIsPhaseRow | src/state-write.js:182-185 | wherever the pattern as written matches, the corrected one matches the same cells |
| StateWrite.FirstPhaseRowLeftmost | src/state-write.js:187 | the corrected search finds the leftmost row of phase `n`; `None` means the reader sees no such row anywhere |
| StateWrite.PaddedRowMissed | src/state-write.js:183 | a row written `\| 01. …` is phase 1 to the reader, the pattern as written for phase 1 does not match it, and the corrected one does |
| StateWrite.UpdateRoadmapProgressFixed | src/state-write.js:175-196 | the corrected writer: the error names the phase exactly when the reader sees no row of phase `n`; otherwise the same edit as the source's, at the leftmost such row |
| StateWrite.FixedFailsIff | src/state-write.js:187-190 | the corrected writer fails exactly when no row of phase `n`, as the reader reads rows, exists |
| StateWrite.FixedAgrees | src/state-write.js:182-196 | where every row of phase `n` is written without leading zeros, the writer as written and the corrected one give the same result |
| StateWrite.FixedFindsWritten | src/state-write.js:187-190 | wherever the writer as written finds its row, the corrected one succeeds too |
| StateWrite.PlanIdShape | src/state-write.js:222-229 | the plan id `XX-NN` is two runs of at least two digits joined by `-`, and escaping leaves it unchanged |
| StateWrite.CheckboxAt | src/state-write.js:228-231 | a checkbox match starts a line, ends at a line end, and holds its mark after `- [` |
| StateWrite.CheckboxMark | src/state-write.js:228-231 | the match's mark is a space or `x` between `[` and `]` |
| StateWrite.FirstCheckboxLeftmost | src/state-write.js:233 | `content.match(checkboxRegex)` finds the leftmost checkbox line of the plan; `None` means there is none |
| StateWrite.MarkIndex | src/state-write.js:233-239 | the mark of the leftmost checkbox line of the plan, exactly when there is one |
| StateWrite.UpdatePlanCheckbox | src/state-write.js:222-239 | the corrected writer, which sets the mark of the line the pattern matched: the error names the plan id exactly when no checkbox line of the plan exists; otherwise only the mark of that line changes, to `x` or a space |
| StateWrite.CheckboxSwap | src/state-write.js:228-231 | changing one mark changes no checkbox match of any plan |
| StateWrite.MarkIndexSwap | src/state-write.js:233 | the leftmost checkbox line, and so its mark, is the same after a mark change |
| StateWrite.CheckboxIdempotent | src/state-write.js:217-239 | setting a checkbox twice to the same state is the same as setting it once |
| StateWrite.CheckboxUndo | src/state-write.js:217-239 | flipping a checkbox and flipping it back gives the original text |
| StateWrite.IndexOf | src/state-write.js:239 | `String.replace` with a string pattern edits a place where that string occurs |
| StateWrite.UpdatePlanCheckboxAsWritten | src/state-write.js:233-239 | as written, the writer fails exactly when the corrected one does |
| StateWrite.AsWrittenAgrees | src/state-write.js:239 | when the matched line's text does not also occur earlier in the file, the writer as written and the corrected one give the same text |
| StateWrite.QuotedCheckbox | src/state-write.js:239 | a checkbox line quoted once in a blockquote above itself: as written the quoted copy is changed and the real checkbox is left alone; the corrected writer changes the real one |
| StateWrite.PlanLine0102Matches | src/state-write.js:228-231 | `- [ ] 01-02` is a checkbox line of phase 1, plan 2, with its mark at offset 3 |
| StateInit.Percent | src/state-init.js:20 | no plans give 0; otherwise the percentage is `100·c/t` rounded half up: `2t·pct ≤ 200c + t < 2t·(pct + 1)` |
| StateInit.PercentBound | src/state-init.js:20 | with `completed ≤ total` the percentage lies in 0..100 |
| StateInit.Filled | src/state-init.js:21 | the number of full cells is `pct / 10` rounded half up |
| StateInit.RenderProgressBar | src/state-init.js:19-24 | the bar renders exactly when at most ten cells are full, as `Bar(filled, pct)`; otherwise it is the RangeError of `'░'.repeat` with a negative count |
| StateInit.Bar | src/state-init.js:23 | the bar is `[`, `filled` full cells, `10 − filled` empty cells, `] `, the percentage and `%` |
| StateInit.ProgressBarRenders | src/state-init.js:19-24 | with `completed ≤ total` the bar always renders, with at most ten full cells |
| StateInit.NoPlansBar | src/state-init.js:20-23 | with no plans the bar is `[░░░░░░░░░░] 0%` whatever `completed` is |
| StateInit.ThreeOfTenBar | src/state-init.js:17 | an example: three plans of ten give `[███░░░░░░░] 30%` |
| StateInit.Slugify | src/state-init.js:32-37 | a slug holds only `a-z`, `0-9` and `-`, has no dash at either end and no two dashes in a row, and keeps exactly the lower-cased letters and digits of the name, in order |
| StateInit.SlugifyIdempotent | src/state-init.js:32-37 | slugifying a slug gives it back |
| StateInit.PhaseDirName | src/state-init.js:85-87 | the directory name is at least two digits giving the phase number, then its first dash, then the slug |
| StateInit.EnsurePhaseDir | src/state-init.js:83-96 | fails exactly when creating the directory fails, with `Failed to create phase directory: ` and the error; otherwise gives `dirName`, the directory name, and `phaseDir`, that name under `planningDir/phases` |
| StateInit.PhaseDirsDistinct | src/state-init.js:83-96 | two phases whose directories are the same path have the same number, whatever their names |
| StateInit.PositionReadsBack | src/state-init.js:118-125 | `parseStatePosition` of the template's Current Position block gives the current phase of the total, plan 0 of 0, status `Initializing`, the date followed by `— Project initialized` and progress 0 |
| StateInit.StateTemplate | src/state-init.js:107-167 | STATE.md opens with `# Project State`, holds the `## Current Position` heading followed by the Current Position block, and closes with the Session Continuity lines: last session on the date, stopped at `Project initialized`, no resume file |
| StateInit.ProjectTemplate | src/state-init.js:203-244 | PROJECT.md opens with `# <project name>`, holds the core value under `## Core Value`, and closes with the last-updated line on the date |
| StateInit.RequirementsTemplate | src/state-init.js:249-272 | REQUIREMENTS.md opens with `# Requirements: <project name>`, holds the `**Core Value:**` line, and closes with the requirements-defined line on the date |
| StateInit.RoadmapTemplate | src/state-init.js:277-304 | ROADMAP.md opens with `# Roadmap: <project name>`, holds the execution order `1 -> 2 -> … -> n` over all phases, and closes with the roadmap-created and last-updated lines on the date |
| StateInit.BlockReads | src/state-init.js:120-125 | every field of a block of that shape reads back, whatever its phase numbers, date and empty bar |
| StateInit.WithDate | src/state-init.js:321 | `options.date \|\| today`: a non-empty date is kept, a missing or empty one becomes today |
| StateInit.CreateOrSkip | src/state-init.js:336-345 | the loop lists each file once, in order, under `created` when it did not exist and under `skipped` when it did; it writes exactly the files it created, and no existing one |
| StateInit.InitProjectFiles | src/state-init.js:319-351 | the five files in their fixed order go through the create-or-skip loop; an existing file is never rewritten |
| StateInit.SelectPartition | src/state-init.js:336-345 | every file is either created or skipped, never both, and only a missing file is created |
| StateInit.SelectAll | src/state-init.js:336-345 | when every file is missing all are created in order, and when every file exists all are skipped |
| StateInit.SecondRunSkipsAll | src/state-init.js:336-345 | a second run after the first creates nothing and skips all five files |
| VerifyWork.ParseMustHaves | src/verify-work.js:51-218 | the method computes `MustHavesOf(content)`: null without a leading frontmatter block, without `must_haves:` in it or without a line that is exactly `must_haves:`; otherwise the record the line loop builds |
| VerifyWork.ScanBlock | src/verify-work.js:78-207 | the line loop steps the scanner over each line until the first unindented one that is not a `#` line |
| VerifyWork.RunStops | src/verify-work.js:82 | reading stops at the first unindented line: nothing after it changes the result |
| VerifyWork.HeaderStep | src/verify-work.js:85-116 | a known two-space section header commits the pending object and opens its section |
| VerifyWork.TruthsRun | src/verify-work.js:119-125 | truth items are collected, quoted text only, in document order |
| VerifyWork.ArtifactRun | src/verify-work.js:128-167 | the lines of one written artifact commit the artifact pending before them and leave this one pending, with all its fields set |
| VerifyWork.LinkRun | src/verify-work.js:181-203 | the lines of one written key link commit the link pending before them and leave this one pending, with all its fields set |
| VerifyWork.ArtifactFieldsSet | src/verify-work.js:140-167 | the continuation fields an artifact is written with (`provides`, `exports`, `min_lines`, `contains`) set exactly that artifact again |
| VerifyWork.LinkFieldsSet | src/verify-work.js:192-203 | the continuation fields a key link is written with (`to`, `via`, `pattern`) set exactly that link again, unquoted |
| VerifyWork.ArtifactsClosed | src/verify-work.js:90-98 | the section header after the artifacts commits the last pending one, so every artifact is kept in order |
| VerifyWork.BlockRun | src/verify-work.js:78-215 | the lines of a written `must_haves` block, scanned and committed at the end, give back exactly the record |
| VerifyWork.MustHavesBlockRoundTrip | src/verify-work.js:59-218 | the frontmatter text of a writable record reads back as that record |
| VerifyWork.MustHavesRoundTrip | src/verify-work.js:51-218 | `parseMustHaves` of a plan that opens with the record's frontmatter gives back that record |
| VerifyWork.ExportsOfText | src/verify-work.js:150-160 | an inline exports list `[a, b]` reads back as written |
| VerifyWork.ParseIntText | src/verify-work.js:162 | `parseInt(_, 10)` reads back every integer written in decimal, and `NaN` |
| VerifyWork.UnquoteQuote | src/verify-work.js:148 | stripping one quote at each end undoes quoting |
| VerifyWork.TruthLineReads | src/verify-work.js:120 | a written truth line neither ends the block nor is a header, and its capture is the truth's text |
| VerifyWork.ItemLineReads | src/verify-work.js:130 | a written `- key: "v"` line neither ends the block nor is a header, and its capture is `v` |
| VerifyWork.FieldTextReads | src/verify-work.js:142 | a written continuation line is not a header or an item, and it gives its key and value |
| ArtifactCheck.Classify | src/verify-work.js:359-366 | STUB exactly when too few lines or a stub pattern; SUBSTANTIVE exactly when enough lines, no stub, no missing export and the `contains` text present; PARTIAL otherwise |
| ArtifactCheck.MissingExports | src/verify-work.js:344-353 | the loop returns the expected exports whose pattern finds nothing, in the order given |
| ArtifactCheck.MissingIff | src/verify-work.js:344-353 | an export is reported missing exactly when it was expected and its pattern finds nothing |
| ArtifactCheck.MissingBounded | src/verify-work.js:344-353 | at most the expected exports are missing, and none is exactly when every pattern finds its export |
| ArtifactCheck.NonEmptyCountAll | src/verify-work.js:337-338 | the non-empty count is at most the number of lines, and equals it exactly when no line trims to nothing |
| ArtifactCheck.NonEmptyCountNone | src/verify-work.js:337-338 | the count is 0 exactly when every line trims to nothing |
| ArtifactCheck.CheckArtifactSubstantive | src/verify-work.js:329-381 | a failed read gives the `Failed to check artifact substantiveness` error; otherwise the status and counts computed from the content |
| ArtifactCheck.SubstantiveIff | src/verify-work.js:359-366 | a file is substantive exactly when it has at least `min_lines` (default 10) non-empty lines, no stub pattern matches, every expected export is found and the `contains` text, if given, occurs |
| ArtifactCheck.PartialIff | src/verify-work.js:362-363 | a file is partial exactly when it has enough lines and no stub but misses an export or the `contains` text |
| ArtifactCheck.ShortFileIsStub | src/verify-work.js:332-361 | without `min_lines`, a file of fewer than ten non-empty lines is a stub |
| ArtifactCheck.ArtifactWired | src/verify-work.js:394-452 | a file whose basename ends in `.md` is wired as `entry-point`; any other is wired exactly when some file imports or references it, and lists those files |
| ArtifactCheck.BasenameJoin | src/verify-work.js:396 | the basename of `dir/name` is `name` |
| ArtifactCheck.WorkflowWired | src/verify-work.js:399-402 | every markdown file is wired through the entry-point shortcut, whatever imports it |
| VerifyReport.ExtractTestableDeliveries | src/verify-work.js:229-291 | the method computes the deliveries as the source captures its sections (`DeliveriesAsWritten`): accomplishments, then tasks, then files |
| VerifyReport.CollectItems | src/verify-work.js:239-249 | the line loop appends the delivery of each line that has one, in line order |
| VerifyReport.SectionAsWrittenLeaks | src/verify-work.js:235-237 | as written, a heading directly followed by another `## ` heading captures text that starts with that heading; the corrected capture is empty |
| VerifyReport.SectionHasNoHeading | src/verify-work.js:235-237 | the corrected capture holds no line beginning with `## ` or `---` |
| VerifyReport.CapturesAgree | src/verify-work.js:235-237 | where the corrected section is missing or holds text, the capture as written is the same |
| VerifyReport.DeliveriesGrouped | src/verify-work.js:229-291 | in the corrected reading, accomplishments come first, then tasks, then files |
| VerifyReport.DeliveriesAsWrittenGrouped | src/verify-work.js:229-291 | as written too, accomplishments come first, then tasks, then files |
| VerifyReport.BulletReads | src/verify-work.js:241 | an accomplishment bullet `- text` reads back as its text |
| VerifyReport.TaskLineReads | src/verify-work.js:260 | a numbered task line `N. **name** …` reads back as its bold name |
| VerifyReport.FileLineReads | src/verify-work.js:279 | a file line ``- `path` - purpose`` reads back as its path and purpose |
| VerifyReport.SectionReadsLines | src/verify-work.js:235-237 | a section with body lines before the next heading, rule or end captures exactly those lines |
| VerifyReport.SummaryRoundTrip | src/verify-work.js:229-291 | in the corrected reading, a SUMMARY.md in the usual layout gives back exactly the accomplishments, tasks and files written in it, in order |
| VerifyReport.SummaryRoundTripAsWritten | src/verify-work.js:229-291 | as written, the same holds when no section is empty |
| VerifyReport.LeakDuplicates | src/verify-work.js:235-249 | an empty Accomplishments section directly followed by the Files section: as written the file is also listed as an accomplishment; the corrected reading lists it once |
| VerifyOutput.BuildVerificationContent | src/verify-work.js:469-531 | the method computes `VerificationText(data)`: the frontmatter, the heading, the summary line, then one section per plan |
| VerifyOutput.AppendRows | src/verify-work.js:497-500 | the `body +=` loop appends one row line per item, in order |
| VerifyOutput.OverallStatusIff | src/verify-work.js:471 | the overall status is `fail` exactly when some check failed, and `pass` otherwise |
| VerifyOutput.VerificationStatusReads | src/verify-work.js:477-484 | the plan-frontmatter reader finds the whole field block of VERIFICATION.md, and its `status` field reads `fail` exactly when some check failed, `pass` otherwise |
| VerifyOutput.TruthRowTicked | src/verify-work.js:498-499 | a truth row is ticked `[x]` exactly when the truth passed |
| VerifyOutput.PlanBlocksIff | src/verify-work.js:495-527 | a plan's section holds the Truths, Artifacts or Key Links block exactly when that list is non-empty |
| VerifyOutput.PhaseLabelOfPadded | src/verify-work.js:474 | a phase named `NN-slug` is headed by its number without leading zeros |
| VerifyOutput.PhaseLabelFallback | src/verify-work.js:474 | a phase name that does not start with a digit, a sign or a blank is printed as it is |
| VerifyOutput.BuildUatContent | src/verify-work.js:545-585 | the method computes `UatText(data)`: the frontmatter with the counts, the heading, then one block per test |
| VerifyOutput.CountsAddUp | src/verify-work.js:548-551 | the four counts never exceed the number of tests, and add up to it exactly when every result is one of `pass`, `fail`, `skipped`, `pending` |
| VerifyOutput.TestsNumbered | src/verify-work.js:573-575 | UAT.md heads its tests `### Test 1` to `### Test n`, in order, one heading each |
| VerifyOutput.SeverityIff | src/verify-work.js:578-581 | a severity line is written exactly when the test has an issue, and it says `unknown` when no severity is given |
| VerifyOutput.UatStatusReads | src/verify-work.js:557-567 | the plan-frontmatter reader finds the whole field block of UAT.md, and its `status` field reads back as the status written |
| MapCodebase.FocusDocuments | src/map-codebase.js:22-27 | the four focus areas' file lists, one after another, are the seven documents |
| MapCodebase.FocusAreasDisjoint | src/map-codebase.js:22-27 | no document belongs to two focus areas |
| MapCodebase.ExpectedOutputFiles | src/map-codebase.js:35-44 | seven paths in table order, each `planningDir/codebase/<document>`, all different, each with its document as basename |
| MapCodebase.ExpectedUnderCodebase | src/map-codebase.js:37-39 | under a named planning directory every expected path holds `/codebase/` |
| MapCodebase.BuildMapperPrompts | src/map-codebase.js:55-83 | four prompts, for the focus areas in table order, each naming its area's marker file, four different marker files in all |
| MapCodebase.PromptMentions | src/map-codebase.js:62-70 | each prompt names `gsd-codebase-mapper.md`, its focus and every one of its area's documents |
| MapCodebase.FoundBounds | src/map-codebase.js:152-153 | at most every checked file is found; none is found exactly when none exists, and all exactly when all do |
| MapCodebase.Report | src/map-codebase.js:155-162 | `found + missing = total`, the number of checked files |
| MapCodebase.RunSequential | src/map-codebase.js:129-143 | the sequential loop collects one result per prompt, in prompt order |
| MapCodebase.RunMapping | src/map-codebase.js:97-168 | a failed `mkdir` gives its error and runs no agent; otherwise one result per prompt, in prompt order, and the report over the seven expected files |
| MapCodebase.MappingSucceedsIff | src/map-codebase.js:155-164 | mapping succeeds exactly when at least one of the seven documents exists, and finds all seven exactly when all exist |
| PlanPhase.ModelsFor | src/plan-phase.js:227-228 | the advice is always one of the table's model sets |
| PlanPhase.ModelsFallback | src/plan-phase.js:227-228 | any profile other than `balanced` or `budget`, or none, gets the quality models |
| PlanPhase.PadPhase | src/plan-phase.js:35-37 | at least two digits, reading back as the phase number |
| PlanPhase.ExpectedPlanFiles | src/plan-phase.js:179-185 | the three stages' files are different |
| PlanPhase.ResearchPrompt | src/plan-phase.js:52-79 | the research prompt's output file is the research file of `getExpectedPlanFiles` |
| PlanPhase.PlannerPrompt | src/plan-phase.js:95-129 | the planner prompt's output file is the planning marker of `getExpectedPlanFiles` |
| PlanPhase.CheckerPrompt | src/plan-phase.js:143-167 | the checker prompt's output file is the review file of `getExpectedPlanFiles` |
| PlanPhase.ResearchPromptSays | src/plan-phase.js:52-79 | the research prompt names its agent definition, shows the user's decisions or says there are none, and ends with its output file |
| PlanPhase.PlannerPromptSays | src/plan-phase.js:95-129 | the planner prompt names its agent definition, shows the user's decisions or the fallback sentence, and ends with its output file |
| PlanPhase.ResearchOnlyInserted | src/plan-phase.js:104-106 | research content changes the planner prompt only by the `<research>` block it inserts; without research content the prompt is the same |
| PlanPhase.CheckerPromptSays | src/plan-phase.js:143-167 | the checker prompt names its agent definition, shows CONTEXT.md or says there is none, and ends with its output file |
| PlanPhase.RunPlanningPipeline | src/plan-phase.js:205-371 | the method's result, agents started and advice are those of `PipelineOf`, given the configuration and the phase directory |
| PlanPhase.RunStages | src/plan-phase.js:237-367 | the three stages update their records as `StagesOf` says |
| PlanPhase.StagesGated | src/plan-phase.js:249-362 | whenever the run returns its records: planning ran; research ran exactly when `workflow.research === true`; checking ran exactly when planning succeeded and `workflow.plan_check === true`; each record's success and file agree with whether its output file exists |
| PlanPhase.SucceedsIffPlanned | src/plan-phase.js:318-327 | once the configuration and the directory are in place, the records are returned and the run succeeds, with no error, exactly when the planner's marker file exists; missing research or review output does not fail it |
| PlanPhase.PlannerMissingStops | src/plan-phase.js:321-327 | without the planner's output the run fails with the partial records, checking not run and no checker started |
| PlanPhase.EarlyFailures | src/plan-phase.js:216-234 | a configuration that was not passed and cannot be read gives `Failed to read config: …`, and a directory that cannot be made gives its error, before any agent starts |
| PlanPhase.OneAgentPerStage | src/plan-phase.js:253-347 | one agent per stage that ran, in pipeline order, with the planner given the research content only when research succeeded |
| PlanPhase.ProfileOnlyAdvises | src/plan-phase.js:226-228 | replacing the model profile changes no result and no prompt, only the advice |
| DiscussPhase.GetPhaseDetails | src/discuss-phase.js:23-106 | the method computes `PhaseDetailsOf(roadmap, n)` |
| DiscussPhase.NotFoundIff | src/discuss-phase.js:37-40 | the phase is reported missing, by number, exactly when the heading pattern matches nowhere |
| DiscussPhase.MissingPhase | src/discuss-phase.js:33-40 | without a line starting `### Phase N:` the phase is reported missing |
| DiscussPhase.HeadingPrefixesExclusive | src/discuss-phase.js:33-36 | a line that starts the heading of phase `m` and of phase `n` has `m = n`: phase 1 never matches phase 10 |
| DiscussPhase.NameFromHeadingLine | src/discuss-phase.js:42 | on the first heading line with text after the colon, the name is the rest of that line, trimmed |
| DiscussPhase.NameMayComeFromNextLine | src/discuss-phase.js:34 | when only blanks follow the colon and the next line has text, `\s*` crosses the line end and the name is that next line, trimmed |
| DiscussPhase.SectionStopsAtNextHeading | src/discuss-phase.js:46-51 | the phase's text is the trimmed text up to the first later `### Phase <digits>:` line or the end, and holds no such line |
| DiscussPhase.FieldAbsent | src/discuss-phase.js:55 | without the label the field is `''` |
| DiscussPhase.FieldFromLine | src/discuss-phase.js:54-55 | at the label's first occurrence, with text after it on its line, the field is that rest of the line, trimmed |
| DiscussPhase.CollectCriteria | src/discuss-phase.js:62-81 | the loop with its `break` computes `Criteria(lines)` |
| DiscussPhase.CriteriaStopRule | src/discuss-phase.js:71-80 | the criteria are the items of the lines before the first blank or `**` line that follows an item; such lines before any item are passed over |
| DiscussPhase.ItemsTrimmed | src/discuss-phase.js:74-75 | every criterion is non-empty and trimmed |
| DiscussPhase.ItemOfNumbered | src/discuss-phase.js:74-75 | a line `N. text` gives the criterion `text` |
| DiscussPhase.DetailsLines | src/discuss-phase.js:84-92 | `details` is, line by line, the Goal line, the Requirements line when there are requirements, and the Success Criteria heading with the criteria renumbered from 1 when there are criteria |
| DiscussPhase.ContextTemplateSections | src/discuss-phase.js:117-138 | the sections are `Decisions`, `Claude's Discretion` and `Deferred Ideas` |
| DiscussPhase.SectionsAreTemplateHeadings | src/discuss-phase.js:118-131 | the listed sections are exactly the template's `## ` headings, in order |

## Left out

- StateWrite.UpdateStatePosition: `$`-patterns in a `String.replace` replacement (`$&`, `` $` ``, `$'`, `$1`) are not expanded; the replacement text is inserted literally, so the model matches the source only when the new values hold no `$`.
- StateWrite.UpdateRoadmapProgress: the same; the row text carried over from `match[1]` and `match[2]` is inserted literally, also when the phase name holds a `$`.
- StateWrite.UpdatePlanCheckbox: the same; the plan line carried over from the match is inserted literally.
- StateWrite.UpdateRoadmapProgress: rewrites the row where the pattern first matches, while src/state-write.js:196 replaces the first occurrence of the matched text. The two places are the same: the pattern has no anchors or lookaround, so an earlier copy of the text would itself be an earlier match. The model does not prove this.
- PlanPhase.ModelsFor: profiles are looked up among the table's own keys only. A profile named after an `Object.prototype` member (`toString`, `constructor`) makes the lookup at src/plan-phase.js:228 return that member instead of falling back to `quality`; the model does not follow it.
- Line breaks other than `\n`: JavaScript's `^`, `$` and `.` also treat a lone `\r`, U+2028 and U+2029 as line ends; the line-based readers and writers split on `\n` only, and `\r` is an ordinary character.
- StateInit.Lower: lower-cases ASCII letters only, where `toLowerCase` in `slugify` also lower-cases other scripts.
- Text.PathJoin: joins with one `/` and does no `path.join` normalisation (`.` and `..` segments, doubled or trailing separators).
- ArtifactCheck.CheckArtifactSubstantive: an export name that is not a valid regular expression makes the source's `new RegExp` throw, which its `catch` turns into a failure; the model takes the export test as a predicate and always classifies.
- `parseInt` is exact on every digit run, where JavaScript loses precision beyond 2^53; numbers in config.json are integers.
- JSON text: parsing config.json is an input (`Config.Load`), and writing it is the returned object; the text `JSON.stringify` would produce (key order, indentation, dropped `undefined` keys) is not modelled.
- File-system I/O: `readState`, `readRoadmap`, `readPlanFrontmatter`, `ensurePlanningDir`, `checkArtifactExists`, `exists` and every `readFile`/`writeFile`/`mkdir` are inputs or outputs of the operations that use them.
- `getOrCreatePhaseDir` of src/discuss-phase.js only calls `ensurePhaseDir`, which `StateInit.EnsurePhaseDir` models.
- Agents: src/agent-spawn.js and src/agent-collect.js are not part of this model; spawning, waiting, timeouts and the parallel branch become the list of prompts handed over and a predicate saying which output files exist afterwards, and `verifyOutputs` becomes that predicate applied to each expected file.
- MapCodebase.Report: keeps the counts `total`, `found` and `missing` of `reportResults`; the `report` text it also returns (src/map-codebase.js:155-162) is dropped, since src/agent-collect.js, which builds it, is not part of this model.
- Console logging and today's date: logging is dropped and the date is a parameter.
- ArtifactCheck.ArtifactWired: the directory walk and the import regexes are not modelled; the files found importing the artifact are a parameter.
- The stub patterns and the export pattern are predicate parameters, not regular expressions.
- StateInit.PositionReadsBack: only the Current Position block of the STATE.md template is proved to read back, and only for a date that stays on its line and holds no `:`.
- StateInit.StateTemplate, StateInit.ProjectTemplate, StateInit.RequirementsTemplate, StateInit.RoadmapTemplate: each is the template's full text, but the contracts fix only its title line, one key line and its closing lines; the rest of the text (placeholders, empty tables) carries no contract, and ROADMAP.md is not proved to read back through `parseRoadmapProgress`.
- The `raw === '[]'` branch of `parsePlanFrontmatter` (src/state-read.js:202-203) cannot be reached, since the `startsWith('[')` branch before it catches `[]`; it is not modelled.
- StateInit.Percent: `Math.round(c / t * 100)` is modelled as exact half-up rounding of the rational `100c/t`; floating-point error at exact halves is not modelled.
- src/installer.js, src/platform.js and bin/install.js install the tool and detect the platform; they are outside the state store and are not part of this model.

## Findings

| source | as written | input that shows it | evidently intended | confidence | as-written member | corrected member |
|---|---|---|---|---|---|---|
| src/state-read.js:188 | `^field:\s*(.*)$` lets `\s*` run over the line end, so a field followed by an indented list reads the first item line as its value | `depends_on:\n  - a` reads as `["- a"]` | the list under the field, `["a"]` | high, not executed | PlanFrontmatter.MultiLineAsWritten | PlanFrontmatter.MultiLineReads |
| src/state-write.js:49 | the section writer ends a section at `^## (?!#)` only, while `parseSections` also starts a heading at `##` followed by a tab | `## A\nx\n##\tB\ny\n`, updating `A`, also replaces section `B` | the section ends where the reader's next heading starts | high, not executed | StateWrite.WriterDropsTabSection | StateWrite.UpdateThenRead |
| src/state-write.js:239 | the checkbox writer replaces the first occurrence of the matched line's text, which can lie before the line itself | a quoted copy `> - [ ] 01-02 …` of the checkbox line above it: the copy changes and the checkbox stays open | the matched line is changed | high, not executed | StateWrite.QuotedCheckbox | StateWrite.UpdatePlanCheckbox |
| src/state-write.js:183 | the roadmap writer looks for `\| N.` with the number unpadded, while the reader reads `01.` as phase 1 | a row `\| 01. Setup \| 0/3 \| …` and phase 1: the update fails | the row the reader reads as phase 1 is updated | medium, not executed | StateWrite.PaddedRowMissed | StateWrite.UpdateRoadmapProgressFixed |
| src/verify-work.js:236 | the capture of `## Accomplishments\s*\n([\s\S]*?)(?=\n## \|\n---\|$)` starts just after a newline, so a `## ` heading that directly follows cannot stop it, and the next section is captured | ``## Accomplishments\n## Files Created/Modified\n- `a.js` - created`` lists `a.js` both as an accomplishment and as a file | an empty section yields no deliveries | high, not executed | VerifyReport.LeakDuplicates | VerifyReport.SummaryRoundTrip |
