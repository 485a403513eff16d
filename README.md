# Simple Kanban core, modelled in Dafny

This project models the algorithmic core of an Obsidian kanban plugin. It has five parts:

- **Task scanner.** `parseTasksFromContent` turns a markdown note into cards. Each card has its subtasks, its notes, its hashtags and up to four emoji-marked ISO dates.
- **Filter language.** A lexer and a recursive-descent parser, with precedence NOT > AND > OR, turn a query string into a `FilterExpression` tree. `evaluateFilter` decides whether a task's tags satisfy that tree.
- **Markdown line edits.** These add or remove a tag on a line, and replace, splice or `<del>`-wrap one line of a file.
- **Task store.** A class that maps each task id to its task and keeps the configured boards.
- **Column assembly.** This chooses the current board, then files the stored tasks into the board's columns, sorted when a column asks for it.

Strings are sequences of Unicode scalar values. The regular-expression classes `\s`, `\w` and `\d` are written out as predicates in `Text`. Each date marker is a single character. Code that works step by step is modelled as methods:

- the scanner's loop;
- the tag `exec` loop;
- the date-stripping loops;
- the lexer's cursor;
- the line editors on their array of lines;
- the store's class;
- `getCurrentBoard`;
- the column loop.

Each of these methods is proved equal to a specification function, and the properties are proved about those functions. The parser is modelled as functions that thread a token index. Its thrown errors become `Err` results, which `ParseFilterString` maps to the match-all `Or([])`.

Files, leaf first:

- `types.dfy`: the records.
- `text.dfy`: the JavaScript string operations.
- `scanner_tags.dfy`, `scanner_dates.dfy`: tag and date extraction.
- `task_scanner.dfy`: the scanner.
- `task_scanner_props.dfy`: what the scanner guarantees.
- `task_scanner_filter.dfy`: the `includeTags` finding.
- `scanner_dates_examples.dfy`, `task_scanner_examples.dfy`, `task_card_examples.dfy`: worked lines and notes.
- `filter_parser.dfy`: the lexer and parser.
- `filter_lexer_props.dfy`, `filter_parser_props.dfy`: lexer facts, and a printer with a parse-print round trip.
- `filter_eval.dfy`: the evaluator.
- `md_edit.dfy`: the line edits.
- `data_store.dfy`: the task store.
- `board_selection.dfy`: board selection.
- `column_assembly.dfy`: column assembly.

Behaviour of the code worth knowing:

- When `includeTags` rejects a card, the checkbox lines nested under it become cards of their own (see Findings).
- A note is trimmed at both ends.
- A marker's date is stored only when `isValidISODate` accepts it. That check rejects years 0000–0099, because `Date.UTC` moves them into the 1900s.

## Model

| member | source | states |
|---|---|---|
| TaskScanner.ParseTasksFromContent | src/taskScanner.ts:7-84 | the loop over the split lines, with its stack of open cards, returns exactly the fold `ParseTasks` of one step per line |
| TaskScanner.ScanLine | src/taskScanner.ts:13-81 | one iteration of the loop body computes exactly one `Step` of the fold |
| TaskScanner.UnwindStack | src/taskScanner.ts:23 | the pop loop leaves the longest prefix of the stack whose top is strictly less indented than the line |
| TaskScanner.Unwind | src/taskScanner.ts:23 | unwinding keeps a prefix of the stack: every frame it pops is at least as deep as the line, the frame left on top is strictly shallower, and a stack whose top is already shallower is kept whole |
| TaskScanner.UnwindShallow | src/taskScanner.ts:23 | on a stack of depth at most one, the open card survives exactly when the line is strictly deeper |
| TaskScanner.CheckboxMatch | src/taskScanner.ts:14 | the captured text after the box has no leading whitespace and no line terminator |
| TaskScanner.CheckboxRoundTrip | src/taskScanner.ts:14-19 | a line of spaces and tabs, a `- [ ]`, `- [x]` or `- [X]` box, a non-empty whitespace gap and text that does not start with whitespace is matched with the indent the tabs-as-two-spaces width gives, complete iff the box holds `x` or `X`, and that text |
| TaskScanner.CheckboxMatchShape | src/taskScanner.ts:14-19 | conversely, every matched line is indent, box, gap and text; its indent is the width of the indent, and it is complete iff the box holds `x` or `X` |
| TaskScanner.TabIndentExample | src/taskScanner.ts:14-18 | `\t- [X]\tShip` is a complete box at indent 2 with text `Ship` |
| TaskScanner.MixedIndentExample | src/taskScanner.ts:14-18 | ` \t- [ ] Ship` is an open box at indent 3 |
| TaskScanner.NoGapExample | src/taskScanner.ts:14 | `- [ ]Ship` is no checkbox: the pattern needs whitespace after the box |
| TaskScanner.OtherBoxExample | src/taskScanner.ts:14 | `- [y] Ship` is no checkbox |
| TaskScanner.PlainMatch | src/taskScanner.ts:69-72 | the fallback pattern fails exactly on a line holding a line terminator, and otherwise captures a suffix of the line |
| TaskScanner.NoteText | src/taskScanner.ts:72-75 | a note, after its bullet marker is dropped, has no leading or trailing whitespace |
| TaskScanner.CheckboxStep | src/taskScanner.ts:17-66 | a checkbox line keeps at most one open card, which is always the last card, and adds at most one card |
| TaskScanner.Step | src/taskScanner.ts:12-82 | any line keeps the stack at depth ≤ 1 with the last card open, and adds at most one card |
| TaskScanner.PlainStep | src/taskScanner.ts:68-81 | a line that is not a checkbox never adds or removes a card; deeper than the open card it adds its non-empty note to that card, which stays open; any other line, a blank one included, closes the open card and changes nothing else |
| TaskScanner.BlankLineCloses | src/taskScanner.ts:68-81 | an empty line closes the open card and changes no card |
| TaskScanner.Scan | src/taskScanner.ts:10-25 | after any number of lines the stack holds at most one frame, which owns the last card |
| TaskScanner.CheckboxSkipCase | src/taskScanner.ts:23-37 | a checkbox that is not deeper than the open card (or comes with no card open) and misses a non-empty `includeTags` closes the open card and adds none |
| TaskScanner.CheckboxCardCase | src/taskScanner.ts:23-55 | a checkbox that is not deeper than the open card (or comes with no card open) and passes the tag filter closes that card and opens a new last card at its own indent |
| TaskScanner.CheckboxSubtaskCase | src/taskScanner.ts:23-64 | a checkbox strictly deeper than the open card becomes a subtask of that card, whatever the tag filter says, and the card stays open |
| TaskScanner.CheckboxLineStep | src/taskScanner.ts:17-66 | the checkbox branch: unwind, then a new card or a subtask, as `CheckboxStep` |
| TaskScanner.TopLevelCheckbox | src/taskScanner.ts:25-37 | with nothing open, the line becomes a card unless the tag filter rejects it |
| TaskScanner.AddCard | src/taskScanner.ts:38-55 | the card is pushed to the list and opened on the stack |
| TaskScanner.NestedCheckbox | src/taskScanner.ts:56-64 | the subtask goes to the open card |
| TaskScanner.BuildTask | src/taskScanner.ts:27-53 | the card has id `path:line`, its 1-based line, the extracted tags, the text stripped of tags and dates, and the four dates |
| TaskScanner.BuildSubtask | src/taskScanner.ts:58-62 | the subtask has its tags, its stripped text and its line, and its dates are dropped |
| TaskScannerProps.StepEffect | src/taskScanner.ts:12-82 | a line does nothing, or appends a card for that line, or adds a subtask or a non-empty trimmed note to the last card |
| TaskScannerProps.CheckboxEffect | src/taskScanner.ts:17-66 | a checkbox line does nothing, appends a fresh card (no subtasks, no notes) or adds a subtask numbered with its own line |
| TaskScannerProps.PlainEffect | src/taskScanner.ts:68-81 | a non-checkbox line deeper than the open card adds a non-empty note to it and keeps it open; any other line closes the open card and changes no card |
| TaskScannerProps.EffectWellFormed | src/taskScanner.ts:12-19 | line numbering and order are kept by every effect of a line |
| TaskScannerProps.StepWellFormed | src/taskScanner.ts:12-82 | one line keeps the cards numbered within the lines read, in line order |
| TaskScannerProps.ScanWellFormed | src/taskScanner.ts:12-19 | after n lines every card is numbered in 1..n, the cards are in strictly increasing line order, and each card's subtasks come after it in increasing order |
| TaskScannerProps.IdsDistinct | src/taskScanner.ts:27 | cards of one file with distinct line numbers have distinct `path:line` ids |
| TaskScannerProps.ParseTasksWellFormed | src/taskScanner.ts:12-54 | cards come in document order with strictly increasing line numbers ≤ the line count, ids `path:line`, and all ids distinct |
| TaskScannerProps.TagsOfList | src/taskScanner.ts:86-94 | every extracted tag is distinct and a `#` followed by tag characters |
| TaskScannerProps.DatesOfClean | src/taskScanner.ts:101-139 | the stripped text is normalised and every reported date is a valid calendar date |
| TaskScannerProps.NewTaskClean | src/taskScanner.ts:38-53 | a new card has normalised text, well-formed tags and only valid dates |
| TaskScannerProps.NewSubtaskClean | src/taskScanner.ts:59-62 | a subtask has normalised text and well-formed tags |
| TaskScannerProps.StepClean | src/taskScanner.ts:12-82 | one line keeps every card clean |
| TaskScannerProps.EffectClean | src/taskScanner.ts:12-82 | every kind of effect keeps the cards clean |
| TaskScannerProps.ScanClean | src/taskScanner.ts:12-82 | after any number of lines all cards are clean |
| TaskScannerProps.ParseTasksClean | src/taskScanner.ts:38-62 | every card and subtask has text with no leading or trailing whitespace and no double whitespace, distinct `#` tags, and only valid dates |
| TaskScannerProps.StepIncluded | src/taskScanner.ts:29-37 | a line never adds a card that misses `includeTags` |
| TaskScannerProps.EffectIncluded | src/taskScanner.ts:29-37 | the effects keep every card selected |
| TaskScannerProps.ScanIncluded | src/taskScanner.ts:29-37 | after any number of lines every card is selected |
| TaskScannerProps.ParseTasksIncluded | src/taskScanner.ts:29-37 | with a non-empty `includeTags`, every card carries at least one of those tags |
| TaskScannerFilter.Keep | src/taskScanner.ts:29-37 | filtering the cards afterwards keeps only cards that carry an included tag |
| TaskScannerFilter.IntendedIsFiltered | src/taskScanner.ts:29-37 | the corrected scanner returns exactly the cards of the unfiltered scan that carry an included tag, in order |
| TaskScannerFilter.NoFilterAgrees | src/taskScanner.ts:29-30 | without `includeTags` the corrected scanner and the scanner as written agree |
| TaskScannerFilter.AsWrittenPromotesNestedTask | src/taskScanner.ts:29-37 | as written, a nested checkbox under a rejected card becomes a card of its own |
| TaskScannerExamples.BlankLineSplitsCards | src/taskScanner.ts:12-81 | in `- [ ] a`, a blank line, `  - [ ] b`, the blank line closes the first card, so the indented box becomes a second card numbered 3 and the first has no subtask |
| TaskCardExamples.ImpossibleCompletionCard | src/taskScanner.ts:25-55 | `- [x] Buy milk ✅ 2024-02-30` gives one complete card whose text keeps the impossible date, with no completion date, no due date and no tags |
| TaskCardExamples.TaggedDueCard | src/taskScanner.ts:25-55 | `- [ ] Write report #in/wip 📅 2024-03-15` gives one open card titled `Write report`, due 2024-03-15, tagged `#in/wip` |
| ScannerTags.TagMatchAt | src/taskScanner.ts:88 | a match of `(^\|\s)#([\w\/-]+)` is a `#` at the start or after whitespace, followed by the maximal run of tag characters |
| ScannerTags.TagOccurrences | src/taskScanner.ts:88-92 | every occurrence the global search finds is a `#` and at least one tag character |
| ScannerTags.ExtractTags | src/taskScanner.ts:86-94 | the `exec` loop with its set returns exactly `TagsOf`, the occurrences deduplicated in first-seen order |
| ScannerTags.AddAllSpec | src/taskScanner.ts:87-93 | adding to an insertion-ordered set keeps it distinct, keeps its prefix, and holds exactly the old and new elements |
| ScannerTags.TagsOfSpec | src/taskScanner.ts:86-94 | the tags are distinct and are exactly the tags that occur |
| ScannerTags.StripTags | src/taskScanner.ts:96-99 | the stripped text has no leading or trailing whitespace and no run of two whitespace characters |
| ScannerTags.StripWithoutTags | src/taskScanner.ts:96-99 | text without tags only has its whitespace normalised |
| ScannerTags.ReplaceWithoutTags | src/taskScanner.ts:97 | where no tag occurs the replacement copies the text |
| ScannerTags.ReplaceTagsLength | src/taskScanner.ts:97 | replacing tags never lengthens the text and leaves one character per match |
| ScannerTags.ExtractExample | src/taskScanner.ts:86-94 | the tags of `#a #b #a` are `#a`, `#b` |
| ScannerTags.GluedTagExample | src/taskScanner.ts:88 | a `#` glued to a word is no tag, and neither is a second tag glued to the first |
| ScannerTags.NoHashNoTags | src/taskScanner.ts:88-97 | text with no `#` has no tag, and the replacement copies it |
| ScannerTags.ReplaceBeforeHash | src/taskScanner.ts:97 | the text before the first `#` is copied as it is |
| ScannerTags.OccurrencesBeforeHash | src/taskScanner.ts:88-92 | no tag is found before the first `#` |
| ScannerTags.InnerTag | src/taskScanner.ts:88-97 | a tag between a word and whitespace is the one tag found, and it is replaced, with the space before it, by one space |
| ScannerDatesExamples.ReportStripped | src/taskScanner.ts:86-99 | `Write report #in/wip 📅 2024-03-15` has the tag `#in/wip`, and stripping it leaves `Write report 📅 2024-03-15` |
| ScannerDates.DaysInMonth | src/taskScanner.ts:149-150 | a Gregorian month has 28 to 31 days |
| ScannerDates.ValidDateIff | src/taskScanner.ts:141-151 | a `DDDD-DD-DD` string is accepted iff its year is ≥ 100, its month is 1–12 and its day is within the Gregorian month length |
| ScannerDates.IsValidISODate | src/taskScanner.ts:141-151 | an accepted date is `DDDD-DD-DD` with a year of at least 100, a month in 1–12 and a day within that Gregorian month (`ValidDateIff` gives the converse) |
| ScannerDates.ValidDateExamples | src/taskScanner.ts:141-151 | 2024-02-29 is accepted; 2023-02-29, 2021-04-31, 0050-01-01 and 2024-13-01 are rejected |
| ScannerDates.DateParts | src/taskScanner.ts:144-146 | the year, month and day are the decimal values of their digits |
| ScannerDates.MarkersAreMarkers | src/taskScanner.ts:115-118 | the four markers are neither whitespace, digits, `-` nor `:` |
| ScannerDates.TimeEnd | src/taskScanner.ts:115-118 | the optional time either is absent or ends on a non-whitespace character |
| ScannerDates.DateMatchAt | src/taskScanner.ts:115-118 | a match of whitespace, marker, whitespace, date and optional time spans at least 13 characters |
| ScannerDates.FindDate | src/taskScanner.ts:123 | `exec` from `lastIndex` finds the first match at or after it, and none is skipped |
| ScannerDates.StripMarker | src/taskScanner.ts:121-135 | one marker's `exec` loop (cut a valid match and restart, step over an invalid one) computes `DatePass` |
| ScannerDates.ExtractAndStripDates | src/taskScanner.ts:101-139 | the four passes in the order created, scheduled, due, completed, then the whitespace cleanup, compute `DatesOf` |
| ScannerDates.Passes | src/taskScanner.ts:121-135 | the passes record one value per marker |
| ScannerDates.NoMatchInside | src/taskScanner.ts:123-133 | no match of a marker's pattern begins strictly inside another match |
| ScannerDates.InvalidPrefix | src/taskScanner.ts:123-133 | after stepping over an invalid match, no valid match lies before the resume point |
| ScannerDates.InvalidBeforeEnd | src/taskScanner.ts:123-133 | no valid match starts before the end of an invalid match the search stops at |
| ScannerDates.DatePassClean | src/taskScanner.ts:121-135 | after a pass no valid match of its marker is left in the text |
| ScannerDates.DatePassUntouched | src/taskScanner.ts:121-135 | with no valid match from the search position on, a pass keeps the text, the impossible dates in it, and its value |
| ScannerDates.SkipInvalid | src/taskScanner.ts:123-133 | an impossible date is stepped over: the search resumes after its match |
| ScannerDates.CutDates | src/taskScanner.ts:123-131 | every date a pass cuts out is a valid calendar date |
| ScannerDates.DatePassRecordsLastCut | src/taskScanner.ts:121-135 | a pass records the last date it cut, or keeps its value when it cut none, and each cut removes at least 13 characters |
| ScannerDates.CutDatesEmptyIff | src/taskScanner.ts:121-135 | a pass cuts nothing iff no valid match starts at or after the search position |
| ScannerDates.InvalidSpan | src/taskScanner.ts:123-133 | no valid match starts between the search position and the end of an invalid match it finds |
| ScannerDates.LastCut | src/taskScanner.ts:124-131 | the value a pass records is none or a valid calendar date |
| ScannerDates.PassesRecord | src/taskScanner.ts:121-135 | pass i records the last date cut from the text the earlier passes left, and later markers have no value yet |
| ScannerDates.PassesUntouched | src/taskScanner.ts:121-135 | when no marker has a valid date, the passes leave the text alone and record nothing |
| ScannerDates.PassesBounded | src/taskScanner.ts:121-135 | the passes only shrink the text, and every recorded value is a valid date |
| ScannerDates.MarkerAbsent | src/taskScanner.ts:115-118 | text without the marker has no match of its pattern |
| ScannerDates.MarkerOnce | src/taskScanner.ts:115-118 | with the marker once in the text, every match starts at the whitespace just before it |
| ScannerDates.TrailingDateMatch | src/taskScanner.ts:115-123 | text ending in its only marker and a date has exactly one match, running to the end and capturing that date |
| ScannerDates.ValidTrailingDate | src/taskScanner.ts:121-135 | such a trailing valid date is recorded and cut, leaving the text before it |
| ScannerDates.InvalidTrailingDate | src/taskScanner.ts:123-133 | such a trailing impossible date is no valid match anywhere |
| ScannerDatesExamples.BuyMilkDates | src/taskScanner.ts:96-139 | `Buy milk ✅ 2024-02-30` has no tag, and date stripping keeps it whole and reports no date, since 30 February does not exist |
| ScannerDatesExamples.ReportDates | src/taskScanner.ts:96-139 | `Write report #in/wip 📅 2024-03-15` keeps the tag `#in/wip`, and stripping gives the title `Write report` with due date 2024-03-15 and no other date |
| ScannerDates.DatePassValue | src/taskScanner.ts:124-131 | a pass leaves the value it started with or a valid date, and the text only shrinks (which date it records is `DatePassRecordsLastCut`) |
| ScannerDates.PassesSpec | src/taskScanner.ts:121-135 | the passes only shrink the text; pass i records the last valid date it cut from what the earlier passes left, and markers not yet searched have no value; when no marker has a valid date, the text and all values are untouched |
| ScannerDates.DatesOfSpec | src/taskScanner.ts:101-139 | each of the four dates is the last valid date its pass cut, from the text the earlier passes left; text with no valid date is only normalised and reports no date; no valid completion date is left; the final text has no double whitespace |
| Text.Upper | src/filter/parser.ts:37 | upper-casing maps each ASCII letter and keeps the length |
| Text.Lower | src/filter/parser.ts:44 | lower-casing maps each ASCII letter and keeps the length |
| Text.LowerOfUpper | src/filter/parser.ts:37-44 | a bare word lower-cased after the upper-casing for keyword matching is the word lower-cased |
| Text.TrimStart | src/utils/mdEdit.ts:4 | the result is a suffix with no leading whitespace, and only whitespace was cut |
| Text.TrimEnd | src/utils/mdEdit.ts:9 | the result is a prefix with no trailing whitespace, and only whitespace was cut |
| Text.TrimmedIsTrimmed | src/taskScanner.ts:98 | `trim` leaves no whitespace at either end |
| Text.TrimEmptyIff | src/filter/parser.ts:133-134 | `trim` gives the empty string exactly on all-whitespace input |
| Text.TrimOfTrimmed | src/taskScanner.ts:137 | trimming text without surrounding whitespace changes nothing |
| Text.CollapseSpaces | src/taskScanner.ts:98 | collapsing never lengthens the text and keeps its first character's kind |
| Text.CollapseNoDoubleSpace | src/taskScanner.ts:98 | after `replace(/\s{2,}/g, ' ')` no two whitespace characters are adjacent |
| Text.CollapseIdentity | src/taskScanner.ts:137 | text without whitespace runs is left unchanged |
| Text.Squish | src/taskScanner.ts:137 | collapse-then-trim output is trimmed and has no double whitespace |
| Text.CollapseAppend | src/taskScanner.ts:98 | collapsing splits at a boundary that does not follow whitespace |
| Text.SquishIdentity | src/taskScanner.ts:137 | normalised text is left as it is |
| Text.NoDoubleSpaceJoin | src/taskScanner.ts:98 | joining two texts without double whitespace has none, unless whitespace meets at the seam |
| Text.SquishDoubleSpace | src/taskScanner.ts:98 | a double space between two normalised pieces becomes one space |
| Text.SplitLines | src/taskScanner.ts:8 | `split(/\r?\n/)` gives at least one line, and no line holds `\n` |
| Text.SplitJoin | src/utils/mdEdit.ts:24-28 | joining with `\n` and splitting again gives the lines back |
| Text.JoinSplit | src/utils/mdEdit.ts:24-28 | without carriage returns, splitting and joining gives the text back |
| Text.NatToString | src/taskScanner.ts:27 | a line number prints as a non-empty run of digits |
| Text.DecimalOfNatToString | src/taskScanner.ts:27 | a printed number reads back as itself |
| Text.NatToStringInjective | src/taskScanner.ts:27 | distinct line numbers print differently |
| Text.StrCompareOrder | src/main.ts:305 | string comparison is antisymmetric, zero only on equal strings, and transitive |
| FilterParser.NextToken | src/filter/parser.ts:13-49 | one `next()` returns EOF only at the end of input, and otherwise consumes at least one character; tag tokens start with `#` |
| FilterParser.Lex | src/filter/parser.ts:13-49 | the lexer yields at most one token per character of input |
| FilterParser.LexTokensValid | src/filter/parser.ts:13-49 | the token stream the lexer yields before EOF holds no EOF, and each of its tags starts with `#` |
| FilterParser.Lexer.constructor | src/filter/parser.ts:10-11 | the cursor starts at 0 |
| FilterParser.Lexer.Next | src/filter/parser.ts:13-49 | the cursor loop returns the token and the new cursor of `NextToken` |
| FilterParser.LetterRunEnd | src/filter/parser.ts:34-36 | a word is the maximal run of ASCII letters |
| FilterParser.Consume | src/filter/parser.ts:65-72 | `consume` succeeds iff the lookahead has the expected kind, and then advances past it |
| FilterParser.ConsumeChecked | src/filter/parser.ts:65-72 | after the lookahead's kind has been checked, `consume` cannot fail and moves past exactly one token |
| FilterParser.ParseOr | src/filter/parser.ts:74-84 | on success the index only moves forward and stays within the token stream |
| FilterParser.OrRest | src/filter/parser.ts:77-81 | on success the OR loop's index only moves forward and stays within the token stream |
| FilterParser.ParseAnd | src/filter/parser.ts:86-96 | on success the index only moves forward and stays within the token stream |
| FilterParser.AndRest | src/filter/parser.ts:89-93 | on success the AND loop's index only moves forward and stays within the token stream |
| FilterParser.ParseNot | src/filter/parser.ts:98-105 | on success the index only moves forward and stays within the token stream |
| FilterParser.ParsePrimary | src/filter/parser.ts:107-129 | on success the index only moves forward and stays within the token stream |
| FilterParser.ParseOrShaped | src/filter/parser.ts:74-84 | a tree `parseOr` returns is well shaped: a lone operand is returned bare, so an `or` it builds has at least two children |
| FilterParser.OrRestShaped | src/filter/parser.ts:77-81 | the OR loop keeps the children it was given as a prefix, appends only well-shaped operands, and stops at a lookahead that is not OR |
| FilterParser.ParseAndShaped | src/filter/parser.ts:86-96 | a tree `parseAnd` returns is well shaped: an `and` it builds has at least two children |
| FilterParser.AndRestShaped | src/filter/parser.ts:89-93 | the AND loop keeps the children it was given as a prefix, appends only well-shaped operands, and stops at a lookahead that is not AND |
| FilterParser.ParseNotShaped | src/filter/parser.ts:98-105 | a tree `parseNot` returns is well shaped: every `not` has exactly one child |
| FilterParser.ParsePrimaryShaped | src/filter/parser.ts:107-129 | a tree `parsePrimary` returns is well shaped, including a parenthesised one |
| FilterParser.Parse | src/filter/parser.ts:59-63 | a successful parse is well shaped: `and`/`or` have ≥ 2 children except `or([])`, and `not` has one |
| FilterParser.ParseFilterString | src/filter/parser.ts:132-142 | the entry point never fails and always returns a well-shaped tree |
| FilterLexerProps.LexConcat | src/filter/parser.ts:13-49 | lexing two queries joined by a space gives the two token streams concatenated |
| FilterLexerProps.LexShift | src/filter/parser.ts:13-49 | lexing after a prefix is lexing the rest |
| FilterLexerProps.LexPrefix | src/filter/parser.ts:13-49 | the tokens of a prefix come first in the tokens of the whole |
| FilterLexerProps.NextTokenShift | src/filter/parser.ts:13-49 | one token read after a prefix is the token of the rest, shifted |
| FilterLexerProps.NextTokenPrefix | src/filter/parser.ts:13-49 | a token complete within a prefix is unchanged by what follows a space |
| FilterLexerProps.LexTagLiteral | src/filter/parser.ts:26-32 | `#` followed by tag characters lexes to one TAG token keeping the literal |
| FilterLexerProps.LexLetterWord | src/filter/parser.ts:34-45 | a letter run is AND/OR/NOT/EMPTY exactly when its upper-casing is that keyword, and otherwise TAG `#` + lower-cased word |
| FilterLexerProps.LexParen | src/filter/parser.ts:18-25 | `(` and `)` lex to LPAREN and RPAREN |
| FilterLexerProps.UnknownCharSkipped | src/filter/parser.ts:46-48 | an unknown character is skipped |
| FilterLexerProps.LexSkipped | src/filter/parser.ts:46-48 | a skipped character at the cursor leaves the rest of the token stream unchanged |
| FilterLexerProps.LexKeyword | src/filter/parser.ts:39-42 | each keyword spelling lexes to its token |
| FilterLexerProps.LexUnwords | src/filter/parser.ts:13-49 | words joined by spaces lex to their tokens in order |
| FilterParserProps.ShapedHasChildren | src/filter/parser.ts:102 | every tree the parser builds can be handed to the evaluator: each `not` has a child |
| FilterParserProps.BlankIsMatchAll | src/filter/parser.ts:132-134 | an empty or whitespace-only query parses to `or([])` |
| FilterParserProps.Tokens | src/filter/parser.ts:74-129 | a printable tree prints to at least one token |
| FilterParserProps.TokensPrintable | src/filter/parser.ts:13-49 | every printed token is one the lexer can produce from its text |
| FilterParserProps.LexTokenText | src/filter/parser.ts:13-49 | each token's text lexes back to that token |
| FilterParserProps.LexPrint | src/filter/parser.ts:13-49 | a printed query lexes to the printed token stream |
| FilterParserProps.PrintTrimmed | src/filter/parser.ts:133 | a printed query is non-empty and survives the entry point's trim |
| FilterParserProps.PrintableShaped | src/filter/parser.ts:74-129 | printable trees are well shaped |
| FilterParserProps.ParseNotTokens | src/filter/parser.ts:98-129 | the NOT level parses a printed operand back, consuming exactly its tokens |
| FilterParserProps.ParseAndTokens | src/filter/parser.ts:86-96 | the AND level parses a printed operand back, consuming exactly its tokens |
| FilterParserProps.ParseTokens | src/filter/parser.ts:59-129 | parsing the printed token stream of a printable tree gives the tree back |
| FilterParserProps.ParsePrint | src/filter/parser.ts:132-142 | parsing the canonical query text of any printable tree gives that tree back |
| FilterParserProps.AndNotExample | src/filter/parser.ts:74-105 | `#a AND NOT #b` parses to `and([tag #a, not([tag #b])])` |
| FilterParserProps.ParseAndNot | src/filter/parser.ts:86-105 | the tokens of `#a AND NOT #b` parse to `and([tag #a, not([tag #b])])` |
| FilterParserProps.OrAndPrecedence | src/filter/parser.ts:74-96 | AND binds tighter than OR: `#a OR #b AND #c` is `or([#a, and([#b, #c])])` |
| FilterParserProps.UnclosedParen | src/filter/parser.ts:112 | an unmatched `(` is a parse error |
| FilterParserProps.ErrorIsMatchAll | src/filter/parser.ts:135-141 | a parse error makes the entry point return `or([])` |
| FilterParserProps.TrailingTokensIgnored | src/filter/parser.ts:59-63 | tokens after the first complete expression are ignored: `#a #b` is `tag #a` |
| FilterParserProps.StrayCloseParen | src/filter/parser.ts:124-127 | an unexpected token in primary position is skipped and stands for `or([])` |
| FilterEval.EvaluateDependsOnlyOnTags | src/filter/eval.ts:3-18 | the verdict depends only on the task's tag list |
| FilterEval.EvaluateFilter | src/filter/eval.ts:3-18 | tag, and, or, not and match-all by recursion on the tree; its properties are the lemmas below (only the tags matter, `and([])` and `or([])` accept all, double negation, one-child connectives) |
| FilterEval.EmptyConnectivesMatchAll | src/filter/eval.ts:10-13 | `and([])` and `or([])` accept every task |
| FilterEval.DoubleNegation | src/filter/eval.ts:15 | `not(not(E))` evaluates as `E` |
| FilterEval.SingletonConnectives | src/filter/eval.ts:10-13 | a one-child `and` or `or` evaluates as its child, so the parser may return it bare |
| MdEdit.ContainsEmpty | src/utils/mdEdit.ts:4 | proof step for the empty-tag case of `AddTagResult`: every line contains the empty string |
| MdEdit.AddTagToLine | src/utils/mdEdit.ts:3-5 | the line unchanged when it contains the tag, else the line, a space and the tag, trimmed; its partners are `AddTagResult`, `AddTagIdempotent` and `AddThenRemove` |
| MdEdit.TrimStartAppend | src/utils/mdEdit.ts:4 | trimming `a + b` trims into `b` only when `a` is all whitespace |
| MdEdit.AddTagResult | src/utils/mdEdit.ts:3-5 | the line is unchanged when the tag occurs anywhere in it; otherwise the result is the unindented line, a space and the tag (the tag alone for a blank line) |
| MdEdit.AppendTrimmed | src/utils/mdEdit.ts:4 | `trim(line + " " + tag)` is the unindented line, a space and the tag |
| MdEdit.AddTagIdempotent | src/utils/mdEdit.ts:4 | adding a tag twice equals adding it once |
| MdEdit.AddTagSubstringExample | src/utils/mdEdit.ts:4 | adding `#in` to a line holding `#in/wip` changes nothing |
| MdEdit.RemovalMatchAt | src/utils/mdEdit.ts:8 | a removal match is the tag at the start or after whitespace, not followed by a word character or `/` |
| MdEdit.ReplaceMatches | src/utils/mdEdit.ts:8-9 | each whole-tag match, with its leading whitespace, becomes one space; partners `ReplaceWithoutMatch`, `RemoveOnlyWholeTags` and `RemoveKeepsLongerTags` |
| MdEdit.RemoveTagFromLine | src/utils/mdEdit.ts:7-10 | the output has no trailing whitespace and no run of two whitespace characters |
| MdEdit.ReplaceWithoutMatch | src/utils/mdEdit.ts:9 | where nothing matches the replacement copies the text |
| MdEdit.RemoveAbsentTag | src/utils/mdEdit.ts:7-10 | removing an absent tag only normalises whitespace |
| MdEdit.RemoveOnlyWholeTags | src/utils/mdEdit.ts:8 | when every occurrence runs on into a longer tag, nothing is removed |
| MdEdit.RemoveKeepsLongerTags | src/utils/mdEdit.ts:8 | removing `#in` leaves `#in/wip` and `#inbox` intact |
| MdEdit.AddThenRemove | src/utils/mdEdit.ts:3-10 | removing a freshly added tag gives the unindented line back, normalised |
| MdEdit.RemoveLoneTag | src/utils/mdEdit.ts:7-10 | removing the tag from a line that is just the tag leaves nothing |
| MdEdit.RemoveAppendedTag | src/utils/mdEdit.ts:7-10 | removing the only, trailing occurrence gives back the rest, normalised |
| MdEdit.RemoveCollapsesIndent | src/utils/mdEdit.ts:9 | leading indentation collapses to one space |
| MdEdit.ReplaceLineInFile | src/utils/mdEdit.ts:16-29 | overwriting one element of the line array writes `LineReplaced`, nothing when the line number is outside the file |
| MdEdit.ReplaceLineReread | src/utils/mdEdit.ts:24-28 | the edit writes iff 1 ≤ lineNumber ≤ line count; read back, the file has the same number of lines, with only that line changed to the new one |
| MdEdit.UpdateSplittable | src/utils/mdEdit.ts:26 | a fitting line keeps the lines readable back |
| MdEdit.ReplaceLineWithText | src/utils/mdEdit.ts:31-42 | splicing the array of lines writes `LineSpliced`, nothing when the line number is outside the file |
| MdEdit.SplicedLinesShape | src/utils/mdEdit.ts:38-39 | the k new lines replace line `lineNumber`, the lines before and after are kept in order, and the file has n − 1 + k lines |
| MdEdit.SpliceOneLine | src/utils/mdEdit.ts:31-42 | splicing one line of text is replacing that line |
| MdEdit.SpaceRunStart | src/utils/mdEdit.ts:52 | the trailing whitespace run is maximal |
| MdEdit.IsWrappedIff | src/utils/mdEdit.ts:52 | the deterministic test agrees with the backtracking pattern `^\s*<del>.*<\/del>\s*$` |
| MdEdit.WrapIsWrapped | src/utils/mdEdit.ts:52-53 | a wrapped line passes the already-wrapped test |
| MdEdit.WrapLineWithDel | src/utils/mdEdit.ts:44-56 | the edit writes `LineWrapped`: nothing for a missing or already wrapped line, otherwise the line wrapped in `<del>…</del>` |
| MdEdit.WrapIdempotent | src/utils/mdEdit.ts:50-53 | on the file it wrote, a second wrap of the same line writes nothing |
| DataStore.Ids | src/dataStore.ts:17 | the ids of a list, one per task, in order |
| DataStore.ById | src/dataStore.ts:15-18 | every task in the map is stored under its own id |
| DataStore.Values | src/dataStore.ts:28-30 | one value per key, in key order |
| DataStore.WithoutKey | src/dataStore.ts:25 | the key order without `id` keeps exactly the other keys, in order, and is unchanged when `id` is absent |
| DataStore.WithoutKeyDistinct | src/dataStore.ts:25 | removing a key keeps the key order duplicate-free |
| DataStore.ByIdKeys | src/dataStore.ts:15-18 | after `setTasks(ts)` the key set is exactly the set of ids of `ts` |
| DataStore.ByIdLastWins | src/dataStore.ts:17 | with duplicate ids, the stored task is the last one with that id |
| DataStore.OrderOfKeys | src/dataStore.ts:17 | the iteration order lists each id once and nothing else |
| DataStore.OrderOfDistinct | src/dataStore.ts:17 | with distinct ids the iteration order is the list order |
| DataStore.SetThenGetAll | src/dataStore.ts:15-30 | setting tasks with distinct ids and reading them all back gives the same list |
| DataStore.DistinctCard | src/dataStore.ts:28-30 | a duplicate-free key order has as many keys as the map |
| DataStore.DropId | src/dataStore.ts:24-26 | dropping an id keeps exactly the tasks with other ids |
| DataStore.TaskStore.AllTasks | src/dataStore.ts:28-30 | one task per stored key: the length equals the number of distinct ids |
| DataStore.TaskStore.constructor | src/dataStore.ts:4-5 | the store starts with no tasks and no boards |
| DataStore.TaskStore.SetBoards | src/dataStore.ts:7-9 | the boards are replaced and the tasks are untouched |
| DataStore.TaskStore.GetBoards | src/dataStore.ts:11-13 | returns exactly the boards last set |
| DataStore.TaskStore.SetTasks | src/dataStore.ts:15-18 | the map is cleared and refilled in list order: earlier entries are gone, and the last task wins per id |
| DataStore.TaskStore.UpsertTask | src/dataStore.ts:20-22 | `t.id` maps to `t`; every other entry and the boards are unchanged; a new id goes last in iteration order |
| DataStore.TaskStore.RemoveTask | src/dataStore.ts:24-26 | only that key is removed, the others keep their tasks and order; an absent id leaves the map and its order unchanged |
| DataStore.TaskStore.GetAllTasks | src/dataStore.ts:28-30 | the values in the map's insertion order |
| DataStore.UpsertExisting | src/dataStore.ts:20-22 | upserting an existing id replaces that task where it stood |
| DataStore.UpsertNew | src/dataStore.ts:20-22 | upserting a new id appends its task |
| DataStore.RemoveValues | src/dataStore.ts:24-30 | after removing an id, the listed tasks are the old ones without that id, in order |
| BoardSelection.ColumnIds | src/main.ts:280 | helper for `FallbackIds` and `ComputeTasksByColumn`: the ids of a column list, in order |
| BoardSelection.GetDefaultBoard | src/main.ts:130-147 | the first configured board, or else the fallback board `default` with columns all, backlog, wip, blocked and a match-all filter |
| BoardSelection.ParseSingleTag | src/main.ts:139-141 | a single tag literal parses to that tag |
| BoardSelection.FallbackTagLiteral | src/main.ts:139-141 | the fallback status tags are tag literals |
| BoardSelection.StatusColumnParsed | src/main.ts:139-141 | each fallback status column filters on exactly the parse of its status tag |
| BoardSelection.BoardQueryParsed | src/main.ts:136 | the fallback board filter is the parse of the blank query |
| BoardSelection.FallbackIds | src/main.ts:137-142 | the fallback columns are all, backlog, wip and blocked |
| BoardSelection.FourColumnsEvaluable | src/main.ts:133-145 | proof step for `FallbackBoardShape`: a four-column board with evaluable filters is evaluable |
| BoardSelection.FallbackBoardShape | src/main.ts:133-145 | the fallback board matches all tasks, its "All" column matches all, and each status column filters on its status tag |
| BoardSelection.FindBoard | src/main.ts:153 | `find` returns the first board with that id, or none when no board has it |
| BoardSelection.Select | src/main.ts:149-158 | with no boards, the default board; else the remembered board when it exists; else the first board, whose id is then remembered |
| BoardSelection.SelectStable | src/main.ts:149-158 | asking again gives the same board and keeps the remembered id |
| BoardSelection.BoardView.constructor | src/main.ts:14 | the view starts with the given boards and no remembered board id |
| BoardSelection.BoardView.GetCurrentBoard | src/main.ts:149-158 | the method returns the board of `Select` and leaves the remembered id it gives |
| ColumnAssembly.FilterTasks | src/main.ts:282-285 | a task is kept iff it passes the board filter, the column filter and the completion rule |
| ColumnAssembly.FilterAppend | src/main.ts:282-285 | filtering distributes over concatenation, so it keeps the store's order |
| ColumnAssembly.FilterKeepsAdmitted | src/main.ts:282-285 | a list whose tasks all pass is kept as it is |
| ColumnAssembly.TitleOrderFlip | src/main.ts:301 | a consistent title comparison orders any two titles |
| ColumnAssembly.Cmp | src/main.ts:297-312 | the column comparator: by title, or by date with undated tasks last and ties by title; `CmpTotal` and `CmpTransitive` make it a total preorder |
| ColumnAssembly.CmpTotal | src/main.ts:297-312 | the comparator orders any two tasks one way or the other |
| ColumnAssembly.TitleCmpTransitive | src/main.ts:298-302 | the title comparator is transitive in either direction |
| ColumnAssembly.DateCmpTransitive | src/main.ts:303-311 | the date comparator is transitive |
| ColumnAssembly.CmpTransitive | src/main.ts:297-312 | the comparator's "not after" is transitive |
| ColumnAssembly.Insert | src/main.ts:313 | insertion adds exactly one task |
| ColumnAssembly.SortTasks | src/main.ts:313 | the sorted column is a permutation of the filtered list |
| ColumnAssembly.InsertSorted | src/main.ts:313 | insertion into a sorted list keeps it sorted |
| ColumnAssembly.SortSorted | src/main.ts:313 | the sorted column is in comparator order |
| ColumnAssembly.SortKeepsSorted | src/main.ts:313 | a list already in comparator order is left as it is |
| ColumnAssembly.Ties | src/main.ts:313 | the tasks of a list tied with a given task, in list order |
| ColumnAssembly.InsertTies | src/main.ts:313 | inserting a task puts it after every task it ties with |
| ColumnAssembly.SortStable | src/main.ts:313 | the sort is stable: the tasks tied with any task keep their input order |
| ColumnAssembly.DatedBeforeUndated | src/main.ts:306-307 | under a date key, tasks with that date come before tasks without it, in either direction |
| ColumnAssembly.DatedInDateOrder | src/main.ts:305 | two dated tasks follow ISO string order, reversed for `desc` |
| ColumnAssembly.UndatedInTitleOrder | src/main.ts:308-311 | two undated tasks follow ascending title order whatever the direction |
| ColumnAssembly.TitlesInDirection | src/main.ts:298-302 | under the title key the titles follow the column's direction |
| ColumnAssembly.ColumnContents | src/main.ts:281-285 | a column lists exactly the stored tasks that pass both filters and its completion rule, each as often as stored |
| ColumnAssembly.ColumnOrder | src/main.ts:282-313 | a column with a sort is in comparator order, and a column without one keeps the store's order |
| ColumnAssembly.MatchAllColumn | src/main.ts:281-285 | a match-all column that hides completed tasks admits exactly the open tasks, and when unsorted it lists a store of open tasks unchanged, in store order |
| ColumnAssembly.FallbackAllColumn | src/main.ts:138 | the fallback "All" column admits exactly the open tasks, and lists a store of open tasks unchanged |
| ColumnAssembly.ComputeTasksByColumn | src/main.ts:277-323 | the map has an entry for every column id and nothing else; each entry is its column's filtered and sorted tasks, and when ids repeat the later column wins |

## Left out

- The Obsidian UI: the board, column and card views and drag and drop. Card display helpers that read the clock are also left out.
- The settings tab and the parsing of board configuration.
- Plugin lifecycle, workspace handling, notices and logging. This includes the per-column count log in `computeTasksByColumn`.
- The file watcher, which rescans one file and concatenates the result into the store. The scanner and `TaskStore.SetTasks` it calls are modelled.
- Vault reads and writes: the line editors take a file's content and return `Some(text)` for the text they would write, or `None` when they write nothing. Whether the file exists is not modelled.
- The Tasks plugin API (`apiV1`). The fallback checkbox toggle is also left out, because it reads the wall clock.
- `localeCompare` and `toLowerCase` on titles: the comparator takes an abstract `titleCmp`, assumed antisymmetric and transitive (`TitleOrder`). The model reads `Array.prototype.sort` as a stable sort, computed by an insertion sort.
- The JavaScript `Date` object: it is replaced by the Gregorian days-in-month rule, keeping the rule that years 0–99 become 1900–1999.
- UTF-16: strings are sequences of code points, so the due-date marker, a surrogate pair in JavaScript, is one character here.
- The `default` arm of `evaluateFilter`: it cannot be reached with a closed datatype.
- TaskScanner.CheckboxStep: its own contract keeps the stack invariant and bounds the number of cards; which of the three outcomes a checkbox line has, by its indent and the tag filter, is stated by `CheckboxSkipCase`, `CheckboxCardCase` and `CheckboxSubtaskCase`.
- FilterEval.EvaluateFilter: requires every `not` to have a child (`NotsHaveChild`). The source would crash on a childless `not`, and the parser never builds one (`ShapedHasChildren`).
- The unused `Task` fields `priority`, `recurrence` and `orderValue`: the scanner never sets them.
- The parser reads the lexer's whole token stream eagerly instead of on demand. This is equivalent because lexing never fails and keeps returning EOF at the end.
- The parsing functions advance the token index directly where the source calls `consume` after checking the lookahead. `ConsumeChecked` shows that such a `consume` cannot throw and moves past exactly one token.

## Findings

| source | as written | input that shows it | evidently intended | confidence | as-written member | corrected member |
|---|---|---|---|---|---|---|
| src/taskScanner.ts:29-37 | when `includeTags` rejects a top-level card, the code skips it without pushing a frame, so the checkbox lines nested under it are read as top-level cards and can be emitted | content `"- [ ] a\n  - [ ] b #x"` with `includeTags = ["#x"]` yields a card for line 2, although that line is a subtask of the rejected card | the comment at line 34 says "Do not include this task or its children": the result should be the unfiltered cards that carry an included tag | medium, not executed | TaskScannerFilter.AsWrittenPromotesNestedTask | TaskScannerFilter.IntendedIsFiltered |
