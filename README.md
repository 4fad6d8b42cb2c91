# weekly-assistant in Dafny

A model of the text-processing core of *weekly-assistant*, a set of Python
scripts that keep a Markdown weekly note. The note is a preamble followed
by one `### Weekday (DD/MM)` section per day. Each section holds checkbox
tasks (`- [ ] ...`, `- [x] ...`) with indented sub-items, and the Monday
section holds an anchor task.

The repository has two pipelines, which are kept as separate models:

- `weekly_assistant/modules/` (modules `DayNotes`, `TaskBlocks`,
  `TaskSelection`, `TaskRemoval`, `TaskInsertion`, `CalendarEvents`,
  `NoteRender`, `NoteManager`):
  - parses a note into a preamble and an ordered dictionary of day sections;
  - extracts task blocks;
  - splits off the pending tasks of past days and the tasks of future
    dates, using today's date;
  - rebuilds the old note without them;
  - writes them into the new note, after the anchor and under their dates;
  - appends calendar events to a day without duplicating them;
  - creates the week's note from a template.
- `weekly_assistant/core/` (modules `NoteParser`, `WeeklyTasks`,
  `CalendarParse`, `CalendarWeekly`, `DailyNoteParser`, `NoteGenerator`)
  does the same jobs with its own rules:
  - an exact anchor match;
  - a fixed April 20 cutoff for future tasks;
  - the calendar-file parse shared by two scripts;
  - insertion of calendar tasks with or without deduplication;
  - a calendar-based week number.

Shared building blocks:

- `Text`: Python's `strip`, `split`, `splitlines`, `join`, `find` and
  substring tests on `seq<char>`.
- `Dict`: an insertion-ordered dictionary, held as a key sequence and a
  map, with Python's assignment and `del`.
- `Dates`: proleptic Gregorian dates with `toordinal`, `weekday`,
  `timedelta` arithmetic and `%d/%m` formatting.
- `WeekDates`: `get_week_dates` and the pieces of the note template.

Functions state what the source computes. Its loops are methods proved
against those functions. Lemmas prove the properties the scripts rely on:

- insertion only inserts, and keeps order;
- whole blocks are removed;
- calendar insertion is idempotent;
- sections keep their order;
- week numbers stay within their bounds;
- impossible dates are classified safely;
- generated notes read back as the week's days.

## Model

| member | source | states |
|---|---|---|
| Text.StripSpec | weekly_assistant/modules/task_processor.py:85 | `str.strip()` gives the empty string exactly for a blank line, and otherwise a string that neither starts nor ends with whitespace; it is `rstrip` after `lstrip` |
| Text.StripIdempotent | weekly_assistant/modules/task_processor.py:85 | stripping a stripped line changes nothing |
| Text.Find | weekly_assistant/modules/task_processor.py:252 | the index of the leftmost occurrence of a separator, and -1 exactly when it does not occur |
| Text.AfterFirst | weekly_assistant/modules/task_processor.py:252 | `line.split(sep, 1)[-1]` is the text right after the leftmost occurrence of the separator (a suffix leaving out that separator and what precedes it), and the whole line when the separator does not occur |
| Text.SplitJoin | weekly_assistant/modules/task_processor.py:99 | splitting `"\n".join(lines)` at line breaks gives the lines back when none holds a line break |
| Text.JoinSplit | weekly_assistant/modules/task_processor.py:99 | joining the pieces of `split("\n")` gives the text back |
| Text.SplitLinesJoin | weekly_assistant/modules/task_processor.py:80 | `splitlines()` undoes `"\n".join` when the last line is not empty |
| Text.SplitLinesJoinAny | weekly_assistant/modules/task_processor.py:80 | `splitlines()` of joined lines loses at most one trailing empty line |
| Text.TrimTail | weekly_assistant/modules/utils.py:44-45 | the lines kept are the leading ones up to the last non-blank line, which is right-stripped; every line dropped is blank |
| Text.StripSplitLinesBlock | weekly_assistant/modules/utils.py:44-45 | `strip().splitlines()` of a section that starts with a non-space is `TrimTail` of its lines |
| TaskBlocks.TaskStartTest | weekly_assistant/modules/task_processor.py:174-177 | the test `line.strip().startswith('- [')` holds exactly for a line that opens a block |
| TaskBlocks.ContinuationTest | weekly_assistant/modules/task_processor.py:187-189 | the three-way continuation test is exactly "starts with four spaces", because a stripped line never starts with a space |
| TaskBlocks.RunFromLongest | weekly_assistant/modules/task_processor.py:183-193 | every line the inner loop takes is a continuation line and the line where it stops is not |
| TaskBlocks.RunFromExact | weekly_assistant/modules/task_processor.py:183-193 | a run of continuation lines ended by a non-continuation line or the end is what the inner loop takes |
| TaskBlocks.BlocksFromStarts | weekly_assistant/modules/task_processor.py:171-199 | the blocks the loop collects are the blocks at the starting lines, in order |
| TaskBlocks.ExtractTaskBlocks | weekly_assistant/modules/task_processor.py:163-199 | `extract_task_blocks` returns the task blocks of `content.splitlines()` |
| TaskBlocks.CollectBlocks | weekly_assistant/modules/task_processor.py:171-199 | the outer loop collects exactly `Blocks(lines)` |
| TaskBlocks.NextBlock | weekly_assistant/modules/task_processor.py:173-197 | one pass of the outer loop advances the index and adds the block that starts there, or nothing for a non-task line |
| TaskBlocks.ScanBlock | weekly_assistant/modules/task_processor.py:179-195 | the inner loop builds the stripped task line followed by the unstripped continuation lines, and stops after the run |
| TaskBlocks.BlockIsBlock | weekly_assistant/modules/task_processor.py:177-193 | the block of a task line starts with `- [` and its other lines start with four spaces |
| TaskBlocks.StartsAreTaskLines | weekly_assistant/modules/task_processor.py:177 | every block starts at a task line |
| TaskBlocks.BlockShape | weekly_assistant/modules/task_processor.py:164-167 | every block is a parent task line followed by indented lines |
| TaskBlocks.StartsOrdered | weekly_assistant/modules/task_processor.py:171-199 | the blocks come in line order and no line lies in two blocks |
| TaskBlocks.TaskLineInBlock | weekly_assistant/modules/task_processor.py:173-197 | every task line lies in some block, as its parent or as a continuation line under one |
| TaskSelection.IncompleteSpec | weekly_assistant/modules/task_processor.py:126-128 | a block is kept exactly when it is one of the blocks and its parent line does not contain `- [x]` |
| TaskSelection.IncompleteAppend | weekly_assistant/modules/task_processor.py:126-128 | filtering keeps the order of the blocks |
| TaskSelection.KeepIncomplete | weekly_assistant/modules/task_processor.py:126-128 | the inner loop keeps exactly the incomplete blocks, in order |
| TaskSelection.AddPending | weekly_assistant/modules/task_processor.py:117-128 | one section adds its incomplete blocks, or nothing when its header is a future date |
| TaskSelection.ExtractPendingTasks | weekly_assistant/modules/task_processor.py:109-130 | `extract_pending_tasks` returns the incomplete blocks of all non-future sections, in section order |
| TaskSelection.PendingSound | weekly_assistant/modules/task_processor.py:117-128 | every pending block is not done and comes from a section whose header is not a future date |
| TaskSelection.PendingComplete | weekly_assistant/modules/task_processor.py:117-128 | every block of a non-future section that is not done is pending |
| TaskSelection.PendingSpec | weekly_assistant/modules/task_processor.py:109-130 | a block is pending if and only if it is not done and belongs to a non-future section |
| TaskSelection.FutureSection | weekly_assistant/modules/task_processor.py:142-158 | a section gives an entry only for a future date with a `### Word (DD/MM)` header and at least one block |
| TaskSelection.AddFuture | weekly_assistant/modules/task_processor.py:140-158 | one section adds its entry to the dictionary, or nothing |
| TaskSelection.ExtractFutureTasks | weekly_assistant/modules/task_processor.py:133-160 | `extract_future_tasks` returns the dictionary built from the sections' entries in order |
| TaskSelection.FutureEntryShape | weekly_assistant/modules/task_processor.py:154-158 | an entry maps the date to the header `Word (DD/MM)` without `### ` and a non-empty list of blocks |
| TaskSelection.FuturePairsShape | weekly_assistant/modules/task_processor.py:154-158 | every entry has that shape |
| TaskSelection.FutureTasksSpec | weekly_assistant/modules/task_processor.py:133-160 | the keys are the distinct dates of future sections with blocks, in first-seen order; each date holds the last such section's entry, and no entry has an empty task list |
| NoteRender.Rebuild | weekly_assistant/modules/task_processor.py:101-104 | the rebuilding loop writes the preamble, a blank line, then every section header, line break, body (stripped where the source strips it) and blank line, in dictionary order |
| NoteRender.SectionsTextAppend | weekly_assistant/modules/task_processor.py:103-104 | the text of two runs of sections is the text of the first followed by the text of the second |
| NoteRender.SectionInText | weekly_assistant/modules/task_processor.py:230-232 | each section's text stands between the sections before it and those after it, so every section is written once, in order |
| NoteRender.FirstWith | weekly_assistant/modules/task_processor.py:303-306 | the index of the first header containing the text, or -1 exactly when no header contains it |
| NoteRender.FindSection | weekly_assistant/modules/task_processor.py:303-306 | the search loop with `break` finds that first header |
| TaskRemoval.AddLineTexts | weekly_assistant/modules/task_processor.py:53-54 | the set grows by the stripped lines of the block |
| TaskRemoval.AddBlockTexts | weekly_assistant/modules/task_processor.py:52-54 | the set grows by the stripped lines of every block |
| TaskRemoval.FutureTextsSnoc | weekly_assistant/modules/task_processor.py:66-68 | each date adds the stripped lines of its blocks |
| TaskRemoval.FutureHeadersSnoc | weekly_assistant/modules/task_processor.py:60-63 | each date adds the first section header that contains it, if any |
| TaskRemoval.CollectRemoval | weekly_assistant/modules/task_processor.py:50-68 | the set of texts is every stripped line of a pending block or a future date's block, and the headers are the first section containing each future date |
| TaskRemoval.SkipSubtasks | weekly_assistant/modules/task_processor.py:91-94 | the inner loop stops at the first line that is not an indented subtask line |
| TaskRemoval.SurviveRun | weekly_assistant/modules/task_processor.py:88-94 | after a removed line, its run of indented lines goes too |
| TaskRemoval.SurviveFirst | weekly_assistant/modules/task_processor.py:85-97 | a line goes when its stripped text is in the removal set, else it stays |
| TaskRemoval.RemoveLines | weekly_assistant/modules/task_processor.py:80-99 | the `while` loop keeps exactly the surviving lines |
| TaskRemoval.SurviveNoText | weekly_assistant/modules/task_processor.py:88 | no surviving line has its stripped text in the removal set |
| TaskRemoval.SurviveSubseq | weekly_assistant/modules/task_processor.py:95-96 | the surviving lines are the section's lines with some left out, the rest in order |
| TaskRemoval.SurviveNothing | weekly_assistant/modules/task_processor.py:83-97 | with nothing to remove every line stays |
| TaskRemoval.KeptLinesSpec | weekly_assistant/modules/task_processor.py:80-99 | the kept lines are an in-order subsequence of the section's lines, none of them is a removed text, and with an empty removal set nothing changes |
| TaskRemoval.CleanSections | weekly_assistant/modules/task_processor.py:71-99 | the section loop deletes the dropped sections and replaces the body of every other non-empty section, keeping dictionary order |
| TaskRemoval.CleanedSpec | weekly_assistant/modules/task_processor.py:71-99 | a section is kept if and only if it is not a future date's section and its header is not a future date; kept sections stay in order, each with its cleaned body |
| TaskRemoval.KeptSubseq | weekly_assistant/modules/task_processor.py:74 | deleting keys leaves the other keys in order |
| TaskRemoval.RemoveTasksFromNote | weekly_assistant/modules/task_processor.py:43-106 | `remove_tasks_from_note` writes the preamble and the kept sections with their cleaned, stripped bodies |
| TaskInsertion.InsertPending | weekly_assistant/modules/task_processor.py:286-296 | the Monday loop copies every line and puts the pending lines right after each line holding `Organizar tarefas semanais` |
| TaskInsertion.InsertAppend | weekly_assistant/modules/task_processor.py:289-294 | the insertion works line by line: it distributes over concatenation |
| TaskInsertion.InsertOnlyAdds | weekly_assistant/modules/task_processor.py:289-294 | the original lines are an in-order subsequence of the result |
| TaskInsertion.InsertNoAnchor | weekly_assistant/modules/task_processor.py:291 | without an anchor line nothing is inserted |
| TaskInsertion.InsertAt | weekly_assistant/modules/task_processor.py:289-294 | every original line is in the result, and an anchor line is followed directly by all the pending lines |
| TaskInsertion.BlockTexts | weekly_assistant/modules/task_processor.py:311 | one `"\n".join` per block, in order |
| TaskInsertion.AddPendingToMonday | weekly_assistant/modules/task_processor.py:277-296 | only the first section whose header holds `Monday` changes, by the anchor insertion |
| TaskInsertion.JoinBlocks | weekly_assistant/modules/task_processor.py:311 | the blocks of one date joined by line breaks |
| TaskInsertion.PlaceDate | weekly_assistant/modules/task_processor.py:299-316 | a date's blocks go after a line break at the end of the first section whose header holds the date, else into a new section `### <header>` |
| TaskInsertion.PlaceNext | weekly_assistant/modules/task_processor.py:299-316 | one more turn of the loop places one more date |
| TaskInsertion.AddFutureBlocks | weekly_assistant/modules/task_processor.py:298-316 | the loop places every date of the future tasks in dictionary order |
| TaskInsertion.UpdateNoteWithTasks | weekly_assistant/modules/task_processor.py:270-323 | `update_note_with_tasks` writes the preamble and the sections after the Monday step and the future step, bodies unstripped |
| TaskInsertion.GrowsTrans | weekly_assistant/modules/task_processor.py:299-316 | "only appends" composes across steps |
| TaskInsertion.FutureStepGrows | weekly_assistant/modules/task_processor.py:308-316 | placing one date only appends: to the body of the section holding the date, or a new section at the end |
| TaskInsertion.FutureStepPlaces | weekly_assistant/modules/task_processor.py:308-316 | after placing a date some section body contains its blocks |
| TaskInsertion.GrowsRefl | weekly_assistant/modules/task_processor.py:299-316 | a note grows into itself |
| TaskInsertion.PlacedGrows | weekly_assistant/modules/task_processor.py:299-316 | placing more dates only appends to what the earlier dates left |
| TaskInsertion.GrowsKeeps | weekly_assistant/modules/task_processor.py:312 | text inside a section body stays there as the note grows |
| TaskInsertion.StepKeeps | weekly_assistant/modules/task_processor.py:312 | a placing step keeps what a section body already contains |
| TaskInsertion.StepPlaces | weekly_assistant/modules/task_processor.py:308-316 | a placing step puts the date's blocks in some section body |
| TaskInsertion.PlacedStepPlaces | weekly_assistant/modules/task_processor.py:299-316 | placing date `j` puts its blocks in some section |
| TaskInsertion.PlacedSpec | weekly_assistant/modules/task_processor.py:298-316 | the future step only appends to the note, and every date's blocks end up inside some section body |
| TaskInsertion.FutureTasksNameDates | weekly_assistant/modules/task_processor.py:154-158 | every header `extract_future_tasks` records, `Word (DD/MM)`, contains its date |
| TaskInsertion.ExtractedFuturePlaced | weekly_assistant/modules/task_processor.py:298-316 | with the future tasks `extract_future_tasks` returns, placing them only appends to the note and every date's blocks end up inside some section body |
| Dict.Empty | weekly_assistant/modules/task_processor.py:138 | `{}` is a valid dictionary with no keys |
| Dict.Put | weekly_assistant/modules/task_processor.py:155 | assignment keeps a present key in place and appends a new one, and stores the value |
| Dict.WithoutSpec | weekly_assistant/modules/task_processor.py:74 | removing a key removes every occurrence of it and only it, and keeps the keys distinct |
| Dict.Delete | weekly_assistant/modules/task_processor.py:74 | `del` removes the key from the order and its value from the map |
| Dict.WithoutAt | weekly_assistant/modules/task_processor.py:74 | deleting a key that occurs once closes the gap it leaves |
| Dict.Dedup | weekly_assistant/modules/task_processor.py:155 | the distinct keys, each once |
| Dict.DedupOrder | weekly_assistant/modules/task_processor.py:155 | the distinct keys are listed in the order of their first occurrence |
| Dict.FromPairsSpec | weekly_assistant/modules/task_processor.py:155 | a dictionary built by assignments has the distinct keys in order of first assignment, each with its last value |
| Dict.FromPairsSnoc | weekly_assistant/modules/task_processor.py:155 | one more pair is one more assignment |
| Dict.Items | weekly_assistant/modules/task_processor.py:71 | `items()` lists the pairs in key order |
| Dict.Kept | weekly_assistant/modules/task_processor.py:71-75 | the keys outside the dropped set, and only those |
| Dict.SweepTurn | weekly_assistant/modules/task_processor.py:71-99 | each turn of the loop over `list(d.items())` deletes, reassigns or leaves alone the current key |
| Dict.TurnKeys | weekly_assistant/modules/task_processor.py:74 | the keys of the dictionary before and after one turn of the loop |
| Dict.KeptNone | weekly_assistant/modules/task_processor.py:71-99 | dropping nothing keeps every key, in order |
| Dict.UpdLookup | weekly_assistant/modules/task_processor.py:99 | a key that is not dropped keeps a value, its new one when it gets one |
| Dict.UpdDropped | weekly_assistant/modules/task_processor.py:74 | a dropped key has no value left |
| Dict.KeptDistinct | weekly_assistant/modules/task_processor.py:71-75 | the kept keys stay distinct |
| Dict.SweepSpec | weekly_assistant/modules/task_processor.py:71-99 | iterating over a copy of the items while deleting and reassigning keeps exactly the keys not deleted, in order, each with its new value when it has one |
| WeeklyTasks.PendingSpec | weekly_assistant/core/organize_weekly_tasks.py:6-9 | exactly the lines that start with `- [ ]` are kept, unchanged and in their order |
| WeeklyTasks.BlocksBeforeFirst | weekly_assistant/core/organize_weekly_tasks.py:13 | lines before the first `### ` line make no block |
| WeeklyTasks.BlocksSection | weekly_assistant/core/organize_weekly_tasks.py:13-16 | a `### ` line and the lines up to the next one form one block, whose first line is the heading without `### ` |
| WeeklyTasks.BlocksOpen | weekly_assistant/core/organize_weekly_tasks.py:13 | a `### ` line opens a new block |
| WeeklyTasks.BlocksExtend | weekly_assistant/core/organize_weekly_tasks.py:13 | any other line joins the last block |
| WeeklyTasks.CleanedSpec | weekly_assistant/core/organize_weekly_tasks.py:20 | exactly the block lines whose stripped text starts with `- [ ]` are kept, unchanged and in order |
| WeeklyTasks.DatedSpec | weekly_assistant/core/organize_weekly_tasks.py:16-25 | an entry has at least one task line, each starting `- [ ]` once stripped, and its header `word (DD/MM)` reads back as its own date |
| WeeklyTasks.HeaderOfEntry | weekly_assistant/core/organize_weekly_tasks.py:23 | the header `### word (DD/MM)` an entry gets is a day header of that date |
| WeeklyTasks.Entries | weekly_assistant/core/organize_weekly_tasks.py:15 | one entry per block, in order |
| WeeklyTasks.ParseFutureTasks | weekly_assistant/core/organize_weekly_tasks.py:11-26 | `parse_tarefas_futuras` returns the dictionary of the entries, or fails |
| WeeklyTasks.CollectEntries | weekly_assistant/core/organize_weekly_tasks.py:15-26 | the loop over the blocks builds that dictionary, and stops at a block with no text |
| WeeklyTasks.FuturesFail | weekly_assistant/core/organize_weekly_tasks.py:16 | the parse fails exactly when some block has no text (`header, *tarefas = []` raises) |
| WeeklyTasks.FuturesPairs | weekly_assistant/core/organize_weekly_tasks.py:22-25 | a successful parse is the dictionary built by assigning the dated pairs in turn: a date given twice keeps its first position and its last entry |
| WeeklyTasks.MalformedFails | weekly_assistant/core/organize_weekly_tasks.py:16 | one block with no text anywhere makes the whole parse fail |
| WeeklyTasks.FuturesWellFormed | weekly_assistant/core/organize_weekly_tasks.py:15-26 | every entry of a successful parse is well formed under its date |
| WeeklyTasks.InsertWeeklyTasks | weekly_assistant/core/organize_weekly_tasks.py:28-55 | `inserir_tarefas_no_markdown` returns the woven lines followed by the unplaced sections, and empties the caller's dictionary of every placed date |
| WeeklyTasks.WeaveLine | weekly_assistant/core/organize_weekly_tasks.py:30-44 | one turn copies the line, the pending tasks after the anchor, and after a day header with an entry its tasks and a blank line, removing the entry |
| WeeklyTasks.RemainingSections | weekly_assistant/core/organize_weekly_tasks.py:48-54 | after the loop: nothing if every entry was placed, else two blank lines and each remaining entry's header and tasks in dictionary order |
| WeeklyTasks.AppendAll | weekly_assistant/core/organize_weekly_tasks.py:34-35 | appending items one by one appends the list |
| WeeklyTasks.HeaderDatesSpec | weekly_assistant/core/organize_weekly_tasks.py:37-40 | a date has been seen exactly when some earlier line is a day header of it |
| WeeklyTasks.RunFuture | weekly_assistant/core/organize_weekly_tasks.py:40-44 | the entries left after the loop are exactly those whose date heads no day of the note, in their original order and unchanged |
| WeeklyTasks.RunLine | weekly_assistant/core/organize_weekly_tasks.py:30-44 | each line is copied and followed by the pending tasks if it is the anchor, then by its date's tasks and a blank line if it is the first header of that date |
| WeeklyTasks.RunLast | weekly_assistant/core/organize_weekly_tasks.py:30-44 | the same for the last line of a non-empty note |
| WeeklyTasks.RunKeeps | weekly_assistant/core/organize_weekly_tasks.py:30-31 | every line of the note is in the loop's output, in order |
| WeeklyTasks.OrganizedKeeps | weekly_assistant/core/organize_weekly_tasks.py:28-55 | every line of the note is in the result, in order |
| WeeklyTasks.PlacedOnce | weekly_assistant/core/organize_weekly_tasks.py:37-44 | an entry stays in the dictionary (and goes to the tail) if and only if no line of the note is a day header of its date |
| WeeklyTasks.AppendedAppend | weekly_assistant/core/organize_weekly_tasks.py:51-54 | the tail sections of two runs of keys are those of the first followed by those of the second |
| WeeklyTasks.AppendedSnoc | weekly_assistant/core/organize_weekly_tasks.py:51-54 | one more key is one more section |
| WeeklyTasks.TailSection | weekly_assistant/core/organize_weekly_tasks.py:48-54 | the tail holds each remaining entry's header line then its tasks, between the sections of the entries before and after it |
| WeeklyTasks.OrganizedDropsFinalNewline | weekly_assistant/core/organize_weekly_tasks.py:57-63 | `main` writes any one-line note that ends in a line break back without it (`l + "\n"` becomes `l`), with empty task files |
| NoteParser.BlocksBeforeFirst | weekly_assistant/core/note_parser.py:14 | lines before the first `### ` line make no block |
| NoteParser.BlocksSection | weekly_assistant/core/note_parser.py:14 | a `### ` line and the lines up to the next `### ` line form one block |
| NoteParser.BlocksOpen | weekly_assistant/core/note_parser.py:14 | a `### ` line opens a new block |
| NoteParser.BlocksExtend | weekly_assistant/core/note_parser.py:14 | any other line joins the last block |
| NoteParser.FindParenDate | weekly_assistant/core/note_parser.py:29 | the leftmost `(DD/MM)` of the title, or -1 exactly when there is none |
| NoteParser.IsFutureTitleSpec | weekly_assistant/core/note_parser.py:29-35 | a title is future exactly when its first `(DD/MM)` has month after 4, or month 4 and day after 20 |
| NoteParser.NoDateNotFuture | weekly_assistant/core/note_parser.py:30-31 | a title without `(DD/MM)` is never future |
| NoteParser.CutoffApril | weekly_assistant/core/note_parser.py:34 | 21/04 is future and 20/04 is not |
| NoteParser.CutoffYear | weekly_assistant/core/note_parser.py:34 | 31/12 is future and 01/01 is not: the cutoff ignores the year and today's date |
| NoteParser.OnlyDate | weekly_assistant/core/note_parser.py:29-35 | in a title whose only `(` opens its date, that date decides |
| NoteParser.NeverMoved | weekly_assistant/core/note_parser.py:15 | a ticked box or an indented line never matches `^- \[ \] .+` |
| NoteParser.PartitionSpec | weekly_assistant/core/note_parser.py:41-46 | every body line goes to exactly one of the pending list and the kept body, each in order, by the task-line test |
| NoteParser.ClassifySpec | weekly_assistant/core/note_parser.py:23-48 | a block is future exactly when its title is; a future block is recorded with its title and task lines and keeps no text; any other block keeps its title and other lines, stripped, and gives up its task lines |
| NoteParser.SortAll | weekly_assistant/core/note_parser.py:23-48 | the three lists only grow as the blocks are visited |
| NoteParser.Outcomes | weekly_assistant/core/note_parser.py:23 | one outcome per block, in order |
| NoteParser.ParseWeeklyNote | weekly_assistant/core/note_parser.py:6-62 | `main` from the read to the writes: the rewritten note, the pending lines and the future blocks |
| NoteParser.SortBlock | weekly_assistant/core/note_parser.py:24-48 | one turn of the block loop |
| NoteParser.SplitBody | weekly_assistant/core/note_parser.py:41-46 | the task lines go to `pending`, the rest stays, in order |
| NoteParser.SortedLines | weekly_assistant/core/note_parser.py:36-46 | only task lines become pending, and every future entry has a future title and only task lines |
| NoteParser.SortedSpec | weekly_assistant/core/note_parser.py:6-62 | the same for the whole note |
| NoteParser.NoteStartsWithPreamble | weekly_assistant/core/note_parser.py:19-21 | the rewritten note begins with the stripped preamble when there is one |
| NoteParser.NoteTextStarts | weekly_assistant/core/note_parser.py:49 | a stripped first piece begins the note text |
| NoteParser.NoteTextEnd | weekly_assistant/core/note_parser.py:49 | the rewritten note ends with exactly one line break after its last non-blank character |
| NoteParser.PendingTextLines | weekly_assistant/core/note_parser.py:50-53 | the pending file is the heading and the pending lines, one per line, with a final line break |
| NoteParser.TerminatedSplit | weekly_assistant/core/note_parser.py:54-60 | lines each followed by a line break read back as those lines and an empty last piece |
| NoteParser.TerminatedAppend | weekly_assistant/core/note_parser.py:54-60 | terminated lines concatenate |
| NoteParser.TaskWritesLines | weekly_assistant/core/note_parser.py:58-59 | the task writes are the task lines, each terminated |
| NoteParser.FutureWritesLines | weekly_assistant/core/note_parser.py:56-60 | the writes per block are its title, a blank line, its tasks and a blank line, each terminated |
| NoteParser.FutureTextLines | weekly_assistant/core/note_parser.py:54-60 | the future file, read back line by line, is its heading then per block the title, a blank line, the task lines and a blank line |
| DailyNoteParser.AddDayTasks | weekly_assistant/core/daily_note_parser.py:28-58 | `inserir_tarefas_do_dia`: the section, then `- [ ] task` for each calendar task of the day whose text is not yet present, then a blank line unless the result already ends in one |
| DailyNoteParser.TaskTextsSpec | weekly_assistant/core/daily_note_parser.py:37-41 | a text is present exactly when a line starting `- [` carries it after `] `, whatever the state of its checkbox |
| DailyNoteParser.TaskTextsAppend | weekly_assistant/core/daily_note_parser.py:37-41 | the present texts of two runs of lines are those of the first followed by those of the second |
| DailyNoteParser.NewTasksSpec | weekly_assistant/core/daily_note_parser.py:44-46 | `- [ ] task` is appended exactly for a task whose stripped text was not present when the day was read; never more lines than tasks |
| DailyNoteParser.TasksPresent | weekly_assistant/core/daily_note_parser.py:44-46 | after the new lines every task's stripped text is present |
| DailyNoteParser.AllPresentAddsNothing | weekly_assistant/core/daily_note_parser.py:45 | when every task's text is present nothing is added |
| DailyNoteParser.DayShape | weekly_assistant/core/daily_note_parser.py:33-58 | the section is kept at the front; after it come new task lines and at most one blank line, which ends the result; a day without an entry gets no task line |
| DailyNoteParser.DayAddsNoHeader | weekly_assistant/core/daily_note_parser.py:44-56 | the new lines of a day open no day |
| DailyNoteParser.DayIdempotent | weekly_assistant/core/daily_note_parser.py:28-58 | a second pass over a day adds nothing |
| DailyNoteParser.DayTasksPresent | weekly_assistant/core/daily_note_parser.py:35-46 | after a pass every task of the day is present in it |
| DailyNoteParser.InsertCalendar | weekly_assistant/core/daily_note_parser.py:61-90 | `inserir_calendario_no_markdown` writes each day section with its new tasks, and the note unchanged when it has no day header |
| DailyNoteParser.FeedAllAppend | weekly_assistant/core/daily_note_parser.py:70-82 | the loop over two runs of lines is the loop over the first, then over the second |
| DailyNoteParser.FeedNoHeader | weekly_assistant/core/daily_note_parser.py:82 | lines that open no day only join the section being collected |
| DailyNoteParser.FeedSeesHeader | weekly_assistant/core/daily_note_parser.py:73-80 | once a day header has been seen, a day is being collected |
| DailyNoteParser.NoHeaderUnchanged | weekly_assistant/core/daily_note_parser.py:87-88 | with no day header the output equals the input |
| DailyNoteParser.SingleDay | weekly_assistant/core/daily_note_parser.py:70-86 | with a single day header the whole note, including the lines before the header, is that day's section |
| DailyNoteParser.LastDay | weekly_assistant/core/daily_note_parser.py:73-86 | a note is written as the note up to its last day header followed by the last day |
| DailyNoteParser.LastHeader | weekly_assistant/core/daily_note_parser.py:72 | the index of the last day header, or -1 exactly when there is none |
| DailyNoteParser.KeepsHeader | weekly_assistant/core/daily_note_parser.py:61-90 | the note's day headers survive the pass |
| DailyNoteParser.OnlyInserts | weekly_assistant/core/daily_note_parser.py:61-90 | the pass only inserts: the note's lines are a subsequence of the result, in order |
| DailyNoteParser.DaySubseq | weekly_assistant/core/daily_note_parser.py:33 | a day's lines are a subsequence of the day after the pass |
| DailyNoteParser.Idempotent | weekly_assistant/core/daily_note_parser.py:61-90 | running the pass again on its own output with the same calendar leaves it unchanged |
| DailyNoteParser.DayOfSection | weekly_assistant/core/daily_note_parser.py:28-58 | a day section stays one: its header first, and no other header after it |
| DailyNoteParser.InsertedOneLine | weekly_assistant/core/daily_note_parser.py:61-90 | single-line notes and tasks give single-line output lines |
| DailyNoteParser.DailyNoteReadsBack | weekly_assistant/core/daily_note_parser.py:93-114 | the file `processar_arquivo_semanal` writes, with the calendar `main` parses, reads back line by line as the updated lines, less a final blank line |
| DailyNoteParser.DailyDropsFinalNewline | weekly_assistant/core/daily_note_parser.py:108-114 | a note ending in a line break is written back without it |
| CalendarParse.NotHeader | weekly_assistant/core/daily_note_parser.py:17 | a line that is empty or starts with `-` opens no day |
| CalendarParse.ParseGoogleCalendar | weekly_assistant/core/daily_note_parser.py:5-25 | `parse_google_calendar` on the file's text gives the calendar of its lines |
| CalendarParse.ParseCalendarLines | weekly_assistant/core/organize_google_calendar_weekly_tasks.py:11-19 | the loop over the lines builds that calendar |
| CalendarParse.Tasks | weekly_assistant/core/daily_note_parser.py:22-23 | at most one task per line: the non-blank lines, stripped |
| CalendarParse.ParseBeforeHeader | weekly_assistant/core/daily_note_parser.py:22 | lines before the first day header are ignored |
| CalendarParse.ParseSection | weekly_assistant/core/daily_note_parser.py:17-23 | a day header opens its key afresh, dropping any earlier list under it; the lines below it up to the next header become its tasks; no other key changes |
| CalendarParse.ParseKeys | weekly_assistant/core/daily_note_parser.py:17-21 | the calendar has exactly the keys of the day headers among the lines |
| CalendarParse.CalendarIsOneLine | weekly_assistant/core/daily_note_parser.py:5-25 | every task the calendar parse reads from the file's lines is a single line |
| CalendarWeekly.BoxedSpec | weekly_assistant/core/organize_google_calendar_weekly_tasks.py:30-31 | one `- [ ] task` line per task, in order, task text as it is |
| CalendarWeekly.InsertCalendarTasks | weekly_assistant/core/organize_google_calendar_weekly_tasks.py:21-33 | `inserir_calendario_no_markdown`: every line copied, with the header's tasks and a blank line right after a header whose key has an entry |
| CalendarWeekly.LinesAfter | weekly_assistant/core/organize_google_calendar_weekly_tasks.py:25-32 | the lines appended after one line |
| CalendarWeekly.WeaveAppend | weekly_assistant/core/organize_google_calendar_weekly_tasks.py:23-24 | the loop over two runs of lines is the loop over the first, then over the second |
| CalendarWeekly.WeaveKeeps | weekly_assistant/core/organize_google_calendar_weekly_tasks.py:24 | every line is copied, in order |
| CalendarWeekly.WeaveAt | weekly_assistant/core/organize_google_calendar_weekly_tasks.py:23-32 | line `i` lands at its position, directly followed by what it gets, and line `i + 1` comes right after that |
| CalendarWeekly.WeaveNothing | weekly_assistant/core/organize_google_calendar_weekly_tasks.py:23-32 | lines that get nothing leave the text as it is |
| CalendarWeekly.CopiesEveryLine | weekly_assistant/core/organize_google_calendar_weekly_tasks.py:21-33 | every input line is in the output, in order |
| CalendarWeekly.SplicedAt | weekly_assistant/core/organize_google_calendar_weekly_tasks.py:23-32 | each line is directly followed by its header's tasks and blank line, or by nothing |
| CalendarWeekly.AfterSpec | weekly_assistant/core/organize_google_calendar_weekly_tasks.py:25-32 | a header whose key has an entry gets its tasks in calendar order, each as `- [ ] task`, then one blank line; any other line gets nothing |
| CalendarWeekly.SplicedLength | weekly_assistant/core/organize_google_calendar_weekly_tasks.py:21-33 | there is no deduplication: the output is longer by exactly one line per task and one blank line per matched header |
| CalendarWeekly.NoMatchUnchanged | weekly_assistant/core/organize_google_calendar_weekly_tasks.py:21-33 | without a header whose key has an entry the note is unchanged |
| CalendarWeekly.WeeklyNoteReadsBack | weekly_assistant/core/organize_google_calendar_weekly_tasks.py:35-40 | the file `main` writes (`splitlines()`, the calendar spliced in, `"\n".join`) reads back line by line as the spliced lines, less a final blank line |
| CalendarWeekly.WeeklyDropsFinalNewline | weekly_assistant/core/organize_google_calendar_weekly_tasks.py:37-40 | a note ending in a line break is written back without it (`"- [ ] a\n"` becomes `"- [ ] a"`) |
| CalendarEvents.CollectExisting | weekly_assistant/modules/task_processor.py:248-253 | the loop collects the texts after the checkbox of the checkbox lines, in order |
| CalendarEvents.AppendEvents | weekly_assistant/modules/task_processor.py:256-265 | the loop appends `- [ ] text` for each event whose text is not existing, in event order |
| CalendarEvents.AddCalendarEventsToDay | weekly_assistant/modules/task_processor.py:241-267 | `add_calendar_events_to_day` returns the day's lines and the new lines, joined by line breaks |
| CalendarEvents.ExistingSpec | weekly_assistant/modules/task_processor.py:249-253 | a text is existing exactly when some checkbox line carries it |
| CalendarEvents.NewLinesSpec | weekly_assistant/modules/task_processor.py:256-264 | a line is appended exactly for an event whose text is not existing; never more lines than events |
| CalendarEvents.AllExistingAddsNothing | weekly_assistant/modules/task_processor.py:263 | when every event's text is present nothing is added |
| CalendarEvents.RepeatedEventAddedTwice | weekly_assistant/modules/task_processor.py:263-264 | `existing_events` is not extended as events are added, so an event listed twice in one call is added twice |
| CalendarEvents.JoinPrefix | weekly_assistant/modules/task_processor.py:267 | joined lines begin the join of a longer list |
| CalendarEvents.AddOnlyAppends | weekly_assistant/modules/task_processor.py:245-267 | adding events only appends: the day's lines, joined, begin the result, followed by exactly the new lines |
| CalendarEvents.ExistingAppend | weekly_assistant/modules/task_processor.py:249-253 | the existing texts of two runs of lines are those of the first followed by those of the second |
| CalendarEvents.BoxLine | weekly_assistant/modules/task_processor.py:250-252 | a new line is a checkbox line whose text after the box is the event's text |
| CalendarEvents.BoxIsCheckbox | weekly_assistant/modules/task_processor.py:250 | a new line passes the checkbox test |
| CalendarEvents.BoxSplit | weekly_assistant/modules/task_processor.py:252 | the first `] ` of a new line is the box's own |
| CalendarEvents.EventsPresent | weekly_assistant/modules/task_processor.py:256-264 | after the events are added, each event's text is the text of some checkbox line |
| CalendarEvents.ExistingDropLastEmpty | weekly_assistant/modules/task_processor.py:245 | a blank last line carries no text |
| CalendarEvents.SecondCallAddsNothing | weekly_assistant/modules/task_processor.py:241-267 | a second call with the same events adds nothing, when each event text is one line without surrounding whitespace |
| CalendarEvents.SecondCallExisting | weekly_assistant/modules/task_processor.py:245-253 | after a call, the checkbox texts of the day hold every event's text |
| CalendarEvents.AddEventsToSections | weekly_assistant/modules/task_processor.py:213-227 | the loop over the sections replaces the body of each section whose weekday has events |
| CalendarEvents.UpdateDailyTasks | weekly_assistant/modules/task_processor.py:202-238 | `update_daily_tasks` on the note's text, bodies written unstripped |
| CalendarEvents.DailySpec | weekly_assistant/modules/task_processor.py:213-227 | every section keeps its place; a section whose weekday has events gets them added to its body; every other section is unchanged |
| DayNotes.WordLength | weekly_assistant/modules/utils.py:81 | the run of `\w` characters a string starts with, and it stops at a non-word character |
| DayNotes.MatchWordDateShape | weekly_assistant/modules/utils.py:81-84 | a successful match means the string is the word, a space, the `DD/MM` in parentheses and whatever follows |
| DayNotes.MatchWordDateOf | weekly_assistant/modules/utils.py:81-84 | every string of that shape matches with its own word and date |
| DayNotes.ExtractDayDateOf | weekly_assistant/modules/utils.py:79-85 | `extract_day_date` of `### word (DD/MM)...` returns that word and date |
| DayNotes.ExtractDayDateShape | weekly_assistant/modules/utils.py:79-85 | `extract_day_date` succeeds only on a header of that shape, and returns its own word and date |
| DayNotes.FindDDMM | weekly_assistant/modules/utils.py:61 | `re.search` finds the leftmost `DD/MM`, or -1 exactly when there is none |
| DayNotes.FutureFromFind | weekly_assistant/modules/utils.py:61-76 | the scan decides by the first `DD/MM`, as the search does |
| DayNotes.IsFutureDateNoDate | weekly_assistant/modules/utils.py:62-63 | without a `DD/MM` in the string the answer is "not future" |
| DayNotes.IsFutureDateSpec | weekly_assistant/modules/utils.py:56-76 | the string names a future date exactly when its first `DD/MM` forms a real date of today's year that comes after today |
| DayNotes.ImpossibleDateIsNotFuture | weekly_assistant/modules/utils.py:71-76 | 31/02 never names a future date, and does not make the check fail |
| DayNotes.DayHeaderIsTitled | weekly_assistant/modules/utils.py:35-39 | a day header is a `### ` heading with text |
| DayNotes.PreambleEnd | weekly_assistant/modules/utils.py:39 | the first line that `^### .+` matches, or the number of lines |
| DayNotes.NextHeading | weekly_assistant/modules/utils.py:35 | a section stops at the next `### ` line or at the end of the note |
| DayNotes.MatchesStep | weekly_assistant/modules/utils.py:43-51 | one more line adds the entry of its match when it is a day header, by dictionary assignment |
| DayNotes.ParseDaySections | weekly_assistant/modules/utils.py:30-53 | `parse_day_sections` returns the stripped preamble and the day sections in the order their headers first appear, a repeated header keeping its first place and its last body |
| DayNotes.AddMatch | weekly_assistant/modules/utils.py:51 | `day_sections[day_title] = day_content` for one match |
| DayNotes.CollectSections | weekly_assistant/modules/utils.py:43-51 | the loop over the matches fills the dictionary |
| DayNotes.NoHeadingAllPreamble | weekly_assistant/modules/utils.py:39-43 | a note without a `### ` heading is all preamble and has no sections |
| DayNotes.NoDayHeaderNoMatches | weekly_assistant/modules/utils.py:43 | lines without a heading give no match |
| DayNotes.StripNewlineEnd | weekly_assistant/modules/utils.py:44 | `strip()` ignores the line break that ends a section |
| DayNotes.SectionLines | weekly_assistant/modules/utils.py:43-45 | the lines of a stripped section are its own lines up to the next heading, without trailing blank lines, the last right-stripped |
| DayNotes.SectionEntry | weekly_assistant/modules/utils.py:44-51 | a section's key is its header line (right-stripped when only blank lines follow) and its body is its remaining lines up to the next heading, without trailing blank lines |
| Dates.DaysInMonth | weekly_assistant/modules/utils.py:72 | months have 28 to 31 days, and 29 exactly for February of a leap year |
| Dates.LastDayOf | weekly_assistant/modules/note_manager.py:136 | `calendar.monthrange(y, m)[1]`, the last day of the month, is between 28 and 31 and not before today |
| Dates.MonthLength | weekly_assistant/modules/utils.py:72 | consecutive months are as far apart as the first one is long |
| Dates.YearLength | weekly_assistant/modules/utils.py:72 | a year has 366 days when it is a leap year and 365 otherwise |
| Dates.DayNumberPositive | weekly_assistant/modules/note_manager.py:83 | `toordinal()` is at least 1, and 1 only for 1 January of year 1 |
| Dates.Weekday | weekly_assistant/modules/note_manager.py:83 | `weekday()` is between 0 (Monday) and 6 |
| Dates.WeekdayOf | weekly_assistant/modules/note_manager.py:83 | the weekday of a date is its day number's, counted from Monday as 0 |
| Dates.NextDay | weekly_assistant/modules/note_manager.py:88 | the day after a valid date is valid and one day number later |
| Dates.PrevDay | weekly_assistant/modules/note_manager.py:83 | the day before is valid and one day number earlier |
| Dates.AddDays | weekly_assistant/modules/note_manager.py:88 | `d + timedelta(days=n)` is valid and `n` day numbers later |
| Dates.SubDays | weekly_assistant/modules/note_manager.py:83 | `d - timedelta(days=n)` is valid and `n` day numbers earlier |
| Dates.DayNumberInjective | weekly_assistant/modules/utils.py:72-73 | two valid dates with the same day number are the same date |
| Dates.AfterIsLater | weekly_assistant/modules/utils.py:73 | comparing dates field by field is comparing their day numbers |
| Dates.TwoDigits | weekly_assistant/modules/note_manager.py:89 | `%d` and `%m` write two digits |
| Dates.TwoDigitsRoundTrip | weekly_assistant/modules/utils.py:65-66 | `int()` of the two digits written gives the number back |
| Dates.FormatDDMM | weekly_assistant/modules/note_manager.py:89 | `strftime("%d/%m")` is five characters, digits around a `/`, reading back as the day and the month |
| Dates.NatToString | weekly_assistant/modules/note_manager.py:19 | `str(n)` of a natural number is a non-empty string of digits |
| Dates.NatToStringRoundTrip | weekly_assistant/modules/note_manager.py:19 | `int(str(n)) == n` |
| Dates.IntToString | weekly_assistant/modules/note_manager.py:164 | `str(n)` is digits and a sign, and the digits for a natural number |
| Dates.Lower | weekly_assistant/modules/note_manager.py:43 | `lower()` changes only the ASCII capitals, each to its small letter |
| WeekDates.Names | weekly_assistant/modules/note_manager.py:89 | the keys `%A` gives, Monday to Sunday |
| WeekDates.NamesDistinct | weekly_assistant/modules/note_manager.py:89 | no two weekday names are equal, so no assignment of the loop overwrites another |
| WeekDates.WeekdayBound | weekly_assistant/modules/note_manager.py:83 | a date's day number exceeds its weekday: the Monday of its week exists |
| WeekDates.MondayBefore | weekly_assistant/modules/note_manager.py:83 | counting back the weekday lands on a Monday no earlier than day 1 |
| WeekDates.WeekStart | weekly_assistant/modules/note_manager.py:83 | `today - timedelta(days=today.weekday())` is a valid date, `weekday()` days before today |
| WeekDates.WeekDay | weekly_assistant/modules/note_manager.py:88 | `start_of_week + timedelta(days=i)` is a valid date `i` days after the start |
| WeekDates.WeekPairs | weekly_assistant/modules/note_manager.py:87-89 | the pairs the loop assigns are each day's name and `DD/MM`, in day order |
| WeekDates.PairsSnoc | weekly_assistant/modules/note_manager.py:87-89 | one more turn of the loop is one more pair |
| WeekDates.GetWeekDates | weekly_assistant/modules/note_manager.py:77-91 | `get_week_dates` assigns the seven pairs in turn |
| WeekDates.WeekDaySpec | weekly_assistant/modules/note_manager.py:82-88 | the week starts on the Monday on or before today, and its `i`-th day is `i` days later and falls on weekday `i` |
| WeekDates.WeekArith | weekly_assistant/modules/note_manager.py:83-88 | the day-number arithmetic of that statement |
| WeekDates.WeekPairsAt | weekly_assistant/modules/note_manager.py:89 | the `i`-th pair is day `i`'s name and `DD/MM` |
| WeekDates.NamedTable | weekly_assistant/modules/note_manager.py:86-89 | assigning pairs keyed by distinct names in order gives those names as keys, each mapped to its pair's value |
| WeekDates.NamedStep | weekly_assistant/modules/note_manager.py:89 | assigning the next name appends it and changes no earlier name's value |
| WeekDates.NamedValues | weekly_assistant/modules/note_manager.py:86-89 | the same for a complete list of names |
| WeekDates.WeekDDMMs | weekly_assistant/modules/note_manager.py:89 | the `DD/MM` of the seven days of the week |
| WeekDates.WeekDatesSpec | weekly_assistant/core/note_generator.py:6-14 | `get_week_dates(today)` maps Monday to Sunday, in that order, to the seven consecutive dates from the Monday on or before today |
| WeekDates.DayLineShape | weekly_assistant/modules/note_manager.py:24 | a day header is one line starting `### ` |
| WeekDates.HeaderShape | weekly_assistant/modules/note_manager.py:24-37 | each header of the template is one line starting `### ` |
| WeekDates.WeekHeaders | weekly_assistant/modules/note_manager.py:24-37 | the seven day headers, Monday first, each one heading line |
| WeekDates.DayLineReadsBack | weekly_assistant/modules/note_manager.py:24 | a day header reads back through `extract_day_date` as its own weekday and date |
| WeekDates.HeaderReadsBack | weekly_assistant/modules/note_manager.py:24-37 | each header of the week reads back as its weekday and date |
| WeekDates.NoNewlineConcat | weekly_assistant/modules/note_manager.py:19 | two single-line texts make a single line |
| WeekDates.MonthNameOneLine | weekly_assistant/modules/note_manager.py:123 | a month name is one line of at least three letters |
| WeekDates.TitleOneLine | weekly_assistant/modules/note_manager.py:19 | the title is a single line |
| WeekDates.FilenameFound | weekly_assistant/modules/note_manager.py:43 | every generated file name matches `*-week-*.md`, with the ordinal as its first part |
| NoteManager.WeekNumber | weekly_assistant/modules/note_manager.py:110-116 | the week of the month is between 1 and 5; below 5 it is the week `(day - 1) // 7 + 1`, and it is 5 exactly from day 29 |
| NoteManager.FourthWeek | weekly_assistant/modules/note_manager.py:94-116 | the fourth week is days 22 to 28, and days 16 to 21 are in the third |
| NoteManager.IsLastWeekIn | weekly_assistant/modules/note_manager.py:125-142 | the call raises `NameError` exactly when `calendar` is unbound; otherwise today is in the last week exactly from day 29, or from day 22 in a 28-day month |
| NoteManager.OrdinalName | weekly_assistant/modules/note_manager.py:156-164 | the table never gives `last` |
| NoteManager.OrdinalWeekIn | weekly_assistant/modules/note_manager.py:144-164 | raises exactly when the last-week test does; otherwise the name is `last` exactly in the last week |
| NoteManager.OrdinalOfToday | weekly_assistant/modules/note_manager.py:144-164 | for a real date the name is one of first..fourth or last; `fourth` only in a month with a fifth week; `last` exactly in the last week |
| NoteManager.HeaderLine | weekly_assistant/modules/note_manager.py:24-37 | the line of each day header in the template |
| NoteManager.Layout | weekly_assistant/modules/note_manager.py:19-39 | the template has 21 lines, each the line the text gives |
| NoteManager.LayoutLines | weekly_assistant/modules/note_manager.py:19-39 | each header sits at its line, and every line is a single line |
| NoteManager.FixedLinesOneLine | weekly_assistant/modules/note_manager.py:21-25 | the link, the tag and the anchor task are single lines |
| NoteManager.LayoutHeadings | weekly_assistant/modules/note_manager.py:19-39 | the day headers are the only heading lines |
| NoteManager.AnchorNotHeading | weekly_assistant/modules/note_manager.py:25 | the anchor task is no heading |
| NoteManager.LayoutAnchor | weekly_assistant/modules/note_manager.py:24-27 | the anchor task is the line after the Monday header, followed by a blank line and the Tuesday header; no other line is the anchor |
| NoteManager.NoteLines | weekly_assistant/modules/note_manager.py:19-39 | the note has 21 lines |
| NoteManager.TitleNotHeading | weekly_assistant/modules/note_manager.py:19 | the title is neither a heading nor the anchor |
| NoteManager.NoteHeaders | weekly_assistant/modules/note_manager.py:19-39 | splitting the text gives the template lines back; the headers run Monday to Sunday and read back as the days of the current week; no other line is a heading |
| NoteManager.MondaySection | weekly_assistant/modules/note_manager.py:24-25 | the Monday section holds the anchor task and a blank line, and the anchor occurs on no other line |
| NoteManager.AsWrittenNeverWrites | weekly_assistant/modules/note_manager.py:42 | as written, every call of `create_weekly_note` raises `NameError` for `calendar` |
| NoteManager.CalendarUnbound | weekly_assistant/modules/note_manager.py:3-7 | the module imports no `calendar` |
| NoteManager.WeeklyNoteWritten | weekly_assistant/modules/note_manager.py:9-54 | with `calendar` imported, every day gives a note whose name the weekly-note glob finds and whose lines are the template's |
| NoteGenerator.FirstWeekday | weekly_assistant/core/note_generator.py:19-20 | the weekday of the 1st is between 0 and 6 |
| NoteGenerator.WeekNumber | weekly_assistant/core/note_generator.py:16-21 | the calendar week of the month, Monday to Sunday, is between 1 and 6, and the 1st is in week 1 |
| NoteGenerator.WeekdayInMonth | weekly_assistant/core/note_generator.py:19-21 | the weekday of day `d` is the weekday of the 1st moved on `d - 1` days |
| NoteGenerator.NextDayWeek | weekly_assistant/core/note_generator.py:21 | from one day to the next in a month, the week number grows by one exactly when the next day is a Monday |
| NoteGenerator.WeekMonotone | weekly_assistant/core/note_generator.py:21 | within a month the week number never decreases |
| NoteGenerator.Ordinal | weekly_assistant/core/note_generator.py:56-63 | weeks 1-4 are first..fourth, week 5 is `last`, and any other number is `Nth` |
| NoteGenerator.SixthWeek | weekly_assistant/core/note_generator.py:56-63 | a month can have a sixth week (30 January 2023), whose note is named `6th` |
| NoteGenerator.FormulasDisagree | weekly_assistant/core/note_generator.py:16-21 | the two week formulas disagree: 2 January 2023 is week 2 here and week 1 in `note_manager.py` |
| NoteGenerator.Layout | weekly_assistant/core/note_generator.py:33-48 | the template has 16 lines, each the line the text gives |
| NoteGenerator.HeaderLine | weekly_assistant/core/note_generator.py:38-46 | the line of each day header in the template |
| NoteGenerator.LayoutLines | weekly_assistant/core/note_generator.py:33-48 | each header sits at its line, and every line is a single line |
| NoteGenerator.LayoutHeadings | weekly_assistant/core/note_generator.py:38-46 | the day headers are the only heading lines, and from Tuesday on they follow one another directly |
| NoteGenerator.LayoutAnchor | weekly_assistant/core/note_generator.py:38-41 | the anchor task is the line after the Monday header, followed by a blank line and the Tuesday header; no other line is the anchor |
| NoteGenerator.NoteLines | weekly_assistant/core/note_generator.py:29-49 | the note has 16 lines |
| NoteGenerator.NoteHeaders | weekly_assistant/core/note_generator.py:29-49 | splitting the text gives the template lines back; the headers run Monday to Sunday and read back as the days of the current week; no other line is a heading |
| NoteGenerator.MondaySection | weekly_assistant/core/note_generator.py:38-39 | the Monday header is followed by the anchor task, which occurs on no other line |
| NoteGenerator.NoteName | weekly_assistant/core/note_generator.py:52-65 | the file name matches `*-week-*.md` and starts with the week's ordinal |

## Left out

- File system and console: reading and writing notes, `mkdir`, `glob` and the choice of the first matching file, `setup_paths`, `log_action` and every `print` are left out. Notes are modelled as their text or their lines. The writing scripts are modelled from the text they read to the text they write, through `NoteParser.ParseWeeklyNote`, `TaskRemoval.RemoveTasksFromNote`, `TaskInsertion.UpdateNoteWithTasks`, `CalendarEvents.UpdateDailyTasks`, `CalendarWeekly.WeeklyNoteText`, `DailyNoteParser.DailyNoteText` and `WeeklyTasks.OrganizedNoteText`. `main` of `core/organize_weekly_tasks.py` is `WeeklyTasks.OrganizedNoteText`.
- `archive_weekly_note` (`weekly_assistant/modules/note_manager.py:57-74`) only moves a file with `shutil.move`, so it is left out.
- `process_weekly_tasks` (`weekly_assistant/modules/task_processor.py:8-40`) only reads files, calls the modelled steps in sequence and writes the results. It is covered through those steps and not as one member.
- Clock: `datetime.now()` and `datetime.today()` are a `today` parameter. `create_weekly_note` in `weekly_assistant/modules/note_manager.py` reads the clock in more than one place, and so does `main` in `weekly_assistant/core/note_generator.py`, through `generate_weekly_note_content` and then `save_weekly_note` (line 53). The model assumes one day for all the reads of one run.
- Google Calendar, OAuth, time zones, `calendar_sync.py`, `google_calendar.py`, `quickstart.py` and the two `actions.py` scripts are not part of this model. Calendar events are given as a summary with start and end times already formatted as `HH:MM`.
- Locale: `strftime` weekday and month names are the English ones.
- Regular expressions: these are written as explicit line predicates. `\w` and `\d` are ASCII letters, digits and `_`, and whitespace is the six ASCII whitespace characters.
- Line breaks: only `\n` is a line break. The other breaks that Python's `splitlines` honours are not modelled.
- Section headings: a `### ` is assumed to occur only at the start of a line. The lookahead of `weekly_assistant/modules/utils.py:35` would otherwise also end a section in the middle of a line.
- Years: the model does not bound the year by `datetime`'s upper limit of 9999.
- WeeklyTasks.PlacedOnce: states that an entry is either placed under the first header of its date or appended to the tail, and never both. It does not count the occurrences of each task line in the output, because the note or another entry may already hold the same text.
- WeeklyTasks.OrganizedNoteText: reading the written file back is shown only for one-line notes with empty task files (`WeeklyTasks.OrganizedDropsFinalNewline`) and not proved for every input, as it is for the two calendar scripts. Such a proof would need every future-task line and header to be shown to be a single line.

## Findings

| source | as written | input that shows it | evidently intended | confidence | as-written member | corrected member |
|---|---|---|---|---|---|---|
| weekly_assistant/modules/note_manager.py:136 | `is_last_week_of_month` calls `calendar.monthrange`, but the module never imports `calendar` (lines 3-7) | any day: `create_weekly_note` asks for the ordinal week, and the call raises `NameError` before any note is written | `import calendar`, so that the last week is decided from the month's length | not executed | NoteManager.AsWrittenNeverWrites | NoteManager.WeeklyNoteWritten |

The docstring of `get_week_number` (`weekly_assistant/modules/note_manager.py:102`) puts week 4 at days 16-28. The code (`weekly_assistant/modules/note_manager.py:110-116`) puts it at days 22-28, and the model follows the code (`NoteManager.FourthWeek`).
