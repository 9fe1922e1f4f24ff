# todo-cli in Dafny

todo-cli is a small command-line task list. `init` creates a storage
directory holding a pending file and a done file, and records their paths in
a JSON configuration file in the working directory. Each task is one
comma-separated text line: name, priority letter, estimated minutes and
date. There are seven commands:

- `add` appends a validated line.
- `list` shows every line. The lines dated today come first, ordered by
  priority and then estimate; the other lines follow, ordered by date,
  priority and estimate.
- `today` shows the lines dated today, ordered by priority and estimate.
- `delete` removes the line with a given 1-based ID.
- `do` moves that line to the done file.
- `edit` rewrites that line.

The model follows `todo/main.py`. Its modules are:

- `Outcome`: the error cases (each is an exit with status 1 in the
  program), `Option` and `Result`.
- `Text`: the Python string operations the program relies on.
  - `strip`, `split(",")`, `upper`, `isalpha`, `isdigit`.
  - `int`/`str` on digit strings.
  - String `<=`.
  - `readlines`, and `writelines` as concatenation.
- `Records`: the `Task` class, which is a class whose setters assign its
  fields. Also priority and estimate validation, and the line format with
  its round trip.
- `Config`: `load_config`, `save_todo_config` with POSIX `os.path.join`,
  and the two guards of `init`.
- `LineOps`: `list.remove`, and the removal of one position that it is
  compared with.
- `Display`: the rows `list` and `today` build. Python's stable `sorted` is
  modelled as an insertion sort, with its two key functions.
- `Commands`: the class `Workspace`. Its fields are the configuration files
  of the working directory and the lines of the pending and done files.
  Each command is a method that updates those fields.

A file is represented by the list `readlines` would return for it. The
invariant `Workspace.Valid` states that both files consist of whole lines,
each ending in one newline. Under that invariant, writing a list back with
`writelines` and reading it again gives the same list (`Text.ReadLinesConcat`).
`add` and `edit` store `ReadLines` of the new line. So a task name that
itself contains a `'\n'` is modelled as the program handles it: it splits
into two lines. Carriage returns are not line ends here (see "Left out").

Today's date is a parameter. It is used both for the new record's date and
for the "dated today" test.

Some behaviours of the program are easy to misread. The model keeps all
of them, with one exception: `init` saves the configuration under the name
that `load_config` reads, which corrects the bug recorded under
"Findings". The others are:

- An absent priority or estimate is stored as the text `None`, not as an
  empty field (`Records.Field`).
- `today` sorts by (priority, estimate), not by (priority, date)
  (`Display.Key`).
- Estimates are compared as text, so `100` sorts before `30`
  (`Display.EstimatesCompareAsText`).
- A comma in a task name is written unescaped, so the line reads back
  with its columns shifted (`Records.CommaInNameShiftsFields`).
- `delete` and `do` remove the first line equal to the addressed one. With
  duplicated lines, that can be an earlier copy (`LineOps.DuplicateRemovesEarlier`).
  The same lines remain either way (`LineOps.RemoveByValueSameLines`), and
  the addressed position is the one removed when no earlier line equals it
  (`LineOps.RemoveByValueAtPosition`).

## Model

| member | source | states |
|---|---|---|
| Records.ValidatePriority | todo/main.py:18-26 | absent stays absent; a given priority is accepted iff it is one ASCII letter of either case, and is then stored upper-cased; every other value is the priority error |
| Records.OneLetterBetween | todo/main.py:23 | for a one-character string, `"A" <= u <= "Z"` holds iff its character is between A and Z |
| Records.ValidateEstimate | todo/main.py:28-42 | absent stays absent; a given estimate is accepted iff it is a non-empty run of decimal digits, and is then stored in canonical form with the same numeric value; otherwise the estimate error |
| Records.EstimateNumericValue | todo/main.py:33-39 | an accepted estimate is stored as `str(int(s))`, and it parses back to the value of `s` |
| Records.EstimateCanonicalKept | todo/main.py:39 | an estimate without leading zeros is stored unchanged |
| Records.ValidationIdempotent | todo/main.py:18-42 | validating a stored priority or estimate again gives the same stored value |
| Records.StoredFieldPlain | todo/main.py:118 | a stored priority or estimate, written into the line, contains no comma and no newline |
| Records.Field | todo/main.py:118 | definition: a present value as it is, an absent one as the text `None`, as the f-string prints it |
| Records.TaskLine | todo/main.py:118 | definition: name, priority, estimate and date joined by commas, `Field` for each optional value, then `\n`; its partners are `Records.TaskLineRoundTrip` and `Records.TaskLineIsLine` |
| Records.Fields | todo/main.py:130 | definition: `line.strip().split(",")`; `Records.TaskLineFields` states what it gives for a written line |
| Records.FirstField | todo/main.py:188 | definition: `line.split(",")[0]`, what `delete` and `do` report; `Records.FirstFieldBeforeComma` relates it to the name |
| Records.TaskLineFields | todo/main.py:118 | reading a written line back with strip and split gives the fields of the name, then priority, estimate and date |
| Records.TaskLineRoundTrip | todo/main.py:118-130 | for a name without commas or leading blanks, the line reads back as exactly the four written fields, and its text before the first comma is the name |
| Records.DatePlain | todo/main.py:118 | a YYYY-MM-DD date holds no comma, no newline and no trailing blank |
| Records.SplitFourFields | todo/main.py:130 | splitting `a,b,c,d` where only `a` may hold commas gives the parts of `a`, then `b`, `c` and `d` |
| Records.SplitCommaParts | todo/main.py:130 | a text splits into two or more parts iff it holds a comma |
| Records.CommaInNameShiftsFields | todo/main.py:118-130 | a name with a comma is not escaped: its line reads back with more than four fields, and the first field is no longer the name |
| Records.TaskLineIsLine | todo/main.py:118 | for a name without a newline, the written line is one whole line, so `readlines` gives it back alone |
| Records.NewTaskLine | todo/main.py:117-118 | building a record succeeds iff both validations do; a bad priority is reported before the estimate is looked at |
| Records.Task.Blank | todo/main.py:12-13 | a new record holds its name, with no other field set yet |
| Records.Task.SetPriority | todo/main.py:18-26 | succeeds iff the priority validates, and then stores the validated value; otherwise the field is untouched |
| Records.Task.SetCompletionMin | todo/main.py:28-42 | succeeds iff the estimate validates, and then stores the validated value; otherwise the field is untouched |
| Records.Task.SetDate | todo/main.py:44-45 | the record's date becomes the given date |
| Records.Task.Line | todo/main.py:118 | definition: the record's line, `TaskLine` of its four fields |
| Records.Task.New | todo/main.py:11-16 | fails exactly when the line builder fails, with the same error; otherwise a fresh record with the given name and date, the validated priority and estimate, and the builder's line |
| Text.IsSpace | todo/main.py:130 | definition: the ASCII characters Python's `str.isspace` accepts (space, tab to carriage return, and the four separators 28-31) |
| Text.LStrip | todo/main.py:130 | definition: `lstrip()`, dropping leading `IsSpace` characters; stated by `Text.LStripMeans` |
| Text.RStrip | todo/main.py:130 | definition: `rstrip()`, dropping trailing `IsSpace` characters; stated by `Text.RStripMeans` |
| Text.Strip | todo/main.py:130 | definition: `strip()` as `lstrip` after `rstrip`; `Text.StripTrimmedNewline` states its use on written lines |
| Text.LStripMeans | todo/main.py:130 | `lstrip` removes exactly the leading whitespace: what remains is a suffix that starts with no blank, and everything removed was blank |
| Text.RStripMeans | todo/main.py:130 | `rstrip` removes exactly the trailing whitespace: what remains is a prefix that ends in no blank, and everything removed was blank |
| Text.StripTrimmedNewline | todo/main.py:118 | stripping a trimmed text plus its newline gives the text back |
| Text.Split | todo/main.py:130 | `split(",")` gives at least one part |
| Text.SplitPartsNoComma | todo/main.py:130 | no part of a split contains a comma |
| Text.JoinSplit | todo/main.py:130 | joining the parts with commas gives the original text |
| Text.SplitNoComma | todo/main.py:130 | a text without commas splits into itself alone |
| Text.SplitAppend | todo/main.py:130 | splitting `a + "," + b` gives the parts of `a` followed by the parts of `b` |
| Text.IsAlpha | todo/main.py:23 | definition: `isalpha()` on ASCII: non-empty and every character a letter |
| Text.IsDigits | todo/main.py:33 | definition: `isdigit()` on ASCII: non-empty and every character a digit |
| Text.Upper | todo/main.py:22 | `upper` keeps the length and upper-cases each character |
| Text.NatToString | todo/main.py:39 | `str(n)` has no leading zero, and is one character long iff `n < 10` |
| Text.ParseNatToString | todo/main.py:39 | `int(str(n)) == n` |
| Text.NatToStringInjective | todo/main.py:136 | different numbers give different strings |
| Text.CanonicalRoundTrip | todo/main.py:34-39 | `str(int(s)) == s` for a digit string without leading zeros |
| Text.ParseDigits | todo/main.py:34-35 | a parsed digit string is never negative |
| Text.ParseLeadingNonzero | todo/main.py:34-35 | a digit string starting with a non-zero digit parses to at least 1 |
| Text.EndsWith | todo/main.py:93 | definition: `s.endswith(t)`, the last `\|t\|` characters of `s` are `t`; stated by `Text.EndsWithMeans` |
| Text.EndsWithMeans | todo/main.py:93 | `s.endswith(t)` holds iff `s` is some text followed by `t` |
| Text.StrLe | todo/main.py:141-145 | definition: Python's string `<=`, character by character, a prefix coming first; `Text.StrLeRefl`, `StrLeAntisym`, `StrLeTrans` and `StrLeTotal` make it a total order |
| Text.StrLeRefl | todo/main.py:141-145 | string `<=` is reflexive |
| Text.StrLeAntisym | todo/main.py:141-145 | string `<=` is antisymmetric |
| Text.StrLeTrans | todo/main.py:141-145 | string `<=` is transitive |
| Text.StrLeTotal | todo/main.py:141-145 | string `<=` is total |
| Text.ReadLines | todo/main.py:130 | `readlines` gives nothing iff the file is empty |
| Text.ReadLinesPieces | todo/main.py:130 | every piece `readlines` gives is non-empty, and all but the last are whole lines |
| Text.ReadLinesLast | todo/main.py:130 | the last piece `readlines` gives has no newline before its final character |
| Text.ReadLinesUnique | todo/main.py:130 | these properties with `Text.ConcatReadLines` pin `readlines` down: any list of such pieces whose text is `s` is `ReadLines(s)` |
| Text.ReadNoNewline | todo/main.py:130 | a non-empty text without a newline is read as one piece, itself |
| Text.Concat | todo/main.py:186 | definition: the text `writelines` puts into a file, the lines one after another |
| Text.ConcatReadLines | todo/main.py:176 | writing back what `readlines` returned reproduces the file |
| Text.ReadLinesConcat | todo/main.py:186 | reading back a list of whole lines that was written out gives the same list |
| Text.ReadLinesAfterNewline | todo/main.py:119-120 | text after a newline is read into separate lines |
| Text.ReadOneLine | todo/main.py:118 | one whole line reads back as itself alone |
| Text.ConcatAppend | todo/main.py:119-120 | the contents of a file built from two lists of lines are the two contents in order |
| Text.ReadLinesPrefixed | todo/main.py:235-236 | whole lines written before some text read back as those lines, followed by the lines of that text |
| Text.ReadLinesSpliced | todo/main.py:233-236 | replacing a run of lines in a file of whole lines by a newline-terminated text changes only that run when the file is re-read |
| Text.ConcatEndsInNewline | todo/main.py:119-120 | a non-empty file of whole lines ends in a newline |
| Text.ReadLinesTerminated | todo/main.py:118 | a newline-terminated text reads as whole lines only |
| Config.FirstMissing | todo/main.py:71-74 | gives nothing iff every key is present; otherwise the first key that is absent, with every earlier key present |
| Config.ConfigLoaded | todo/main.py:64-78 | no configuration file gives the "no configuration" error; otherwise the data is returned iff all three keys are present, else the missing-key error for one of them |
| Config.LoadConfig | todo/main.py:64-78 | the loop over the three keys returns exactly what `ConfigLoaded` specifies |
| Config.PathJoin | todo/main.py:51-53 | an absolute second part replaces the first; otherwise the result starts with the first part and ends with the second |
| Config.ConfigFor | todo/main.py:51-59 | the saved configuration holds all three keys: the directory under the root, and both files under that directory |
| Config.SaveTodoConfigAsWritten | todo/main.py:47-62 | definition: the program's save, storing `ConfigFor` under `.todo_config_json`; stated by `Config.SaveAsWrittenInvisible` |
| Config.SaveTodoConfig | todo/main.py:47-62 | definition: the corrected save, storing `ConfigFor` under `.todo_config.json`; stated by `Config.SavedConfigLoads` |
| Config.SaveAsWrittenInvisible | todo/main.py:61-69 | as written, saving never changes what the next load sees; from a directory without a configuration, loading still fails |
| Config.SavedConfigLoads | todo/main.py:61-75 | with the file name `load_config` reads, the next load returns exactly the configuration saved |
| Config.InitCheck | todo/main.py:89-95 | an existing directory is reported first; otherwise `init` proceeds iff both file names end in `.txt`, else the `.txt` error |
| LineOps.FirstIndex | todo/main.py:183 | the position of the first element equal to the value |
| LineOps.RemoveFirst | todo/main.py:183 | `remove` takes away exactly one element |
| LineOps.RemoveFirstSplice | todo/main.py:183 | `remove` deletes exactly the first occurrence, keeping what is before it and after it in order |
| LineOps.RemoveFirstMultiset | todo/main.py:183 | `remove` takes away one copy of the value and nothing else |
| LineOps.DropOneMultiset | todo/main.py:183 | dropping one position takes away one copy of the element there and nothing else |
| LineOps.RemoveAt | todo/main.py:182-183 | deleting a position shifts every later element down by one and keeps the earlier ones |
| LineOps.RemoveByValueAtPosition | todo/main.py:182-183 | when no earlier line equals the addressed one, removing it by value removes that position |
| LineOps.RemoveByValueSameLines | todo/main.py:182-183 | removing by value leaves the same lines, with multiplicity, as removing the position |
| LineOps.DuplicateRemovesEarlier | todo/main.py:182-183 | with a duplicated line, addressing the later copy removes the earlier one |
| Display.WithIds | todo/main.py:136 | one row per line, and every row has an ID and four fields when the lines are well formed |
| Display.IdRow | todo/main.py:136 | definition: `[str(i+1)] + task`, the row of line `i` |
| Display.WithIdsAt | todo/main.py:136 | row `i` is the ID `str(i+1)` followed by the fields of line `i` |
| Display.WithIdsDates | todo/main.py:136 | the date column of each row is the fourth field of its line |
| Display.IdIsPosition | todo/main.py:136 | each row's ID is a digit string that parses to its 1-based line number |
| Display.IdsDistinct | todo/main.py:136 | no two rows share an ID |
| Display.WithIdsOnce | todo/main.py:136 | since the IDs differ, each row occurs at most once among the rows with ID |
| Display.DistinctCount | todo/main.py:136 | a sequence whose elements are pairwise different holds each value at most once |
| Display.Key | todo/main.py:138-143 | definition: for `list`, `(0, priority, estimate)` for a row dated today and `(1, date, priority, estimate)` otherwise; for `today`, tier 0 followed by `(priority, estimate)`, which orders as the key `(x[2], x[3])` of main.py:166 does |
| Display.FieldsLe | todo/main.py:141-145 | definition: Python's tuple `<=` on tuples of strings, element by element with `StrLe`, a prefix coming first |
| Display.KeyLe | todo/main.py:141-145 | definition: tuple `<=` on the keys, the integer tier first, then `FieldsLe` on the remaining fields |
| Display.FieldsLeRefl | todo/main.py:141-145 | tuple `<=` is reflexive |
| Display.FieldsLeTotal | todo/main.py:141-145 | tuple `<=` is total |
| Display.FieldsLeAntisym | todo/main.py:141-145 | tuple `<=` is antisymmetric |
| Display.FieldsLeTrans | todo/main.py:141-145 | tuple `<=` is transitive |
| Display.KeyLeTotal | todo/main.py:138-145 | the key order of either command is total |
| Display.KeyLeRefl | todo/main.py:138-145 | the key order of either command is reflexive |
| Display.KeyLeTrans | todo/main.py:138-145 | the key order of either command is transitive |
| Display.Insert | todo/main.py:145 | inserting adds one row, and the result starts with the new row or the old first row |
| Display.InsertPermutation | todo/main.py:145 | inserting adds exactly that one row |
| Display.InsertSorted | todo/main.py:145 | inserting into a sorted list keeps it sorted |
| Display.InsertStable | todo/main.py:145 | rows with a given key keep their relative order after an insertion |
| Display.WithKeyCons | todo/main.py:145 | the rows with a key, after a prepended row, are that row when it has the key, then the rest |
| Display.AdjacentIsSorted | todo/main.py:145 | a list sorted pair by adjacent pair is sorted for every pair |
| Display.SortRows | todo/main.py:145 | sorting keeps the number of rows |
| Display.SortRowsAdjacent | todo/main.py:145 | the sorted rows are in order, pair by adjacent pair |
| Display.SortRowsSorted | todo/main.py:145 | the sorted rows are in key order for every pair |
| Display.SortRowsPermutation | todo/main.py:145 | sorting is a permutation |
| Display.SortRowsStable | todo/main.py:145 | rows with equal keys keep their input order, as Python's stable `sorted` does |
| Display.SortedSameMembers | todo/main.py:145 | a row is in the sorted list iff it is in the input |
| Display.DatedToday | todo/main.py:162 | the filter gives no more rows than its input |
| Display.DatedTodayMembers | todo/main.py:162 | a row survives iff it is an input row dated today |
| Display.DatedTodayEmpty | todo/main.py:162-164 | the filter gives nothing iff no row is dated today |
| Display.DatedTodayMultiset | todo/main.py:162 | the filter keeps every copy of each row dated today and drops every other row |
| Display.List | todo/main.py:132-146 | `list` reports "no tasks" iff the file is empty, and never the `today` message |
| Display.ListShowsEveryLine | todo/main.py:136-146 | `list` shows exactly the rows with IDs, each once |
| Display.ListOrdering | todo/main.py:138-145 | every row dated today comes before any other row; today's rows are ordered by (priority, estimate), and the rest by (date, priority, estimate) |
| Display.ListStable | todo/main.py:145 | rows of `list` with equal keys keep their file order |
| Display.Today | todo/main.py:157-167 | `today` never reports the `list` message |
| Display.TodayNothingDue | todo/main.py:157-164 | `today` reports "no tasks due today" iff no line is dated today, including an empty file |
| Display.TodayShowsTodaysLines | todo/main.py:162-167 | a row is shown by `today` iff it is the row with ID of a line dated today |
| Display.TodayShowsEachOnce | todo/main.py:162-167 | `today` shows each row with ID dated today as many times as the rows with ID hold it, which is at most once, and no other row |
| Display.WithIdsMembers | todo/main.py:162 | a row with an ID dated today is exactly one built from a line dated today |
| Display.WithIdsMemberIsToday | todo/main.py:162 | each row with an ID dated today comes from a line dated today |
| Display.TodayOrdering | todo/main.py:166 | `today` orders its rows by (priority, estimate) and keeps ties in file order |
| Display.ListExample | todo/main.py:136-145 | on milk (A, 30, today), eggs (C, 15, yesterday) and bread (A, 45, today), `list` shows IDs 1, 3, 2 |
| Display.EstimatesCompareAsText | todo/main.py:166 | with equal priority, an estimate of 100 sorts before 30, because estimates are compared as text |
| Commands.Workspace.Init | todo/main.py:86-109 | the guards are checked in order and change nothing when they fail; otherwise both files start empty and the configuration is saved under the corrected name `.todo_config.json`, where the next load finds it (the program writes `.todo_config_json`; see "Findings") |
| Commands.Workspace.Add | todo/main.py:111-121 | a missing configuration and each validation failure leave the file alone; otherwise the file's contents gain exactly the new line, and its lines gain `readlines` of it |
| Commands.Workspace.ListTasks | todo/main.py:123-146 | the configuration error, or the `list` view of the pending lines |
| Commands.Workspace.TodayTasks | todo/main.py:148-167 | the configuration error, or the `today` view of the pending lines |
| Commands.Workspace.Delete | todo/main.py:169-188 | the configuration error and an ID outside 1..n change nothing; otherwise the first line equal to line ID is removed, and its text before the first comma is returned |
| Commands.Workspace.Do | todo/main.py:190-216 | as `delete`, and the removed line is appended to the done file, so the two files together keep their number of lines |
| Commands.Workspace.Edit | todo/main.py:218-238 | the ID is checked before the record is validated, and a failure changes nothing; otherwise line ID is replaced by the new line as it reads back |
| Commands.AppendedLines | todo/main.py:119-120 | appending a newline-terminated text to a file of whole lines reads back as the old lines followed by the new ones |
| Commands.RemovedLinesStayLines | todo/main.py:183-186 | removing a line keeps the file made of whole lines |
| Commands.EditReplacesOneLine | todo/main.py:233 | when the new record is one line, `edit` replaces line ID and keeps every other line and the count |
| Commands.NewTaskLineFields | todo/main.py:117-118 | the line `add` writes for a plain name is one line whose fields are the name, the stored priority and estimate, and the date |
| Commands.AddedTaskIsShown | todo/main.py:111-167 | after adding a task with a plain name, `list` and `today` both show it under the next ID, with its name, stored priority and estimate, and today's date |
| Commands.AppendedLineShown | todo/main.py:136-167 | a well-formed line dated today that is appended is shown by both views under the next ID |
| Commands.AppendedWellFormed | todo/main.py:130 | appending a line with four fields keeps the file well formed |
| Commands.LastLineListed | todo/main.py:136-146 | `list` shows the last line under the ID equal to the number of lines |
| Commands.LastLineDueToday | todo/main.py:162-167 | `today` shows the last line when it is dated today |

## Left out

- The command-line layer is not modelled. That covers argument parsing by
  typer, default arguments, the coloured messages and the `tabulate`
  table. Each exit with status 1 is an `Err` value; a success message is
  represented by the returned name or listing.
- The file system is abstracted: files are line lists in `Workspace`, and
  the configuration files are a map from file name to parsed data. JSON
  text, JSON parse errors and I/O errors are not modelled. The `except
  Exception` branch of `do` (todo/main.py:214-216) is left out; in the
  source it can leave the done line appended without the pending file
  rewritten.
- Concurrent invocations and the absence of locking are not modelled.
- The clock is a parameter (`today`). Its format is only required where a
  lemma needs it (`Records.IsDate`, YYYY-MM-DD).
- The home directory lookup is the `root` parameter of `Init`. Whether the
  storage directory exists is the `dirExists` parameter. The
  `FileExistsError` branch (todo/main.py:107-109) reports the same error
  as the first guard, so it is folded into that flag.
- The `load_config` paths are not followed: every command works on the one
  pending file and the one done file of the workspace, whatever paths the
  configuration holds.
- Text is ASCII. Python's Unicode `upper`, `isalpha`, `isdigit` and
  `strip` are restricted to their ASCII behaviour. For example, a
  non-ASCII digit that `isdigit` accepts is rejected here.
- Display.List: requires every line to have at least four comma-separated
  fields (`Display.WellFormed`). The source raises `IndexError` on a
  shorter line, and that crash is not modelled.
- Display.Today: same `Display.WellFormed` precondition as `List`.
- Commands.Workspace.ListTasks: same `Display.WellFormed` precondition.
- Commands.Workspace.TodayTasks: same `Display.WellFormed` precondition.
- Commands.Workspace.Add: requires `Valid()`, which excludes a pending file
  whose last line lacks its newline. In the source, such a file would glue
  the new record onto that last line.
- Commands.Workspace.Delete, Commands.Workspace.Do and
  Commands.Workspace.Edit: require `Valid()` as well. The source also runs
  on a hand-edited pending file whose last line has no newline; `do` then
  appends that unterminated line to the done file, and the next line
  appended there is glued onto it. Those files are not modelled.
- Commands.Workspace.Init: saves the configuration with the corrected
  `Config.SaveTodoConfig`, under `.todo_config.json`. The program writes
  `.todo_config_json` (todo/main.py:61), so after its `init` the next
  command still finds no configuration. That behaviour is stated by
  `Config.SaveAsWrittenInvisible` instead of being built into `Init`.
- Text.ReadLines: splits at `'\n'` only. Files are opened in text mode
  with universal newlines, so Python's `readlines` also ends a line at
  `'\r'` and at `"\r\n"` and reads either as `'\n'`. A name containing
  `'\r'` is one line in the model but two lines to the program, and the
  first of those has too few fields for `list`.
- Records.ValidateEstimate: accepts digit strings of any length. Recent
  Python versions limit `int()` to 4300 digits and raise `ValueError`
  above that; the program does not name a Python version, so that limit
  is not modelled.

## Findings

| source | as written | input that shows it | evidently intended | confidence | as-written member | corrected member |
|---|---|---|---|---|---|---|
| todo/main.py:61-69 | `save_todo_config` writes `.todo_config_json`, while `load_config` reads `.todo_config.json` | `init` in an empty working directory, then `add x`: the load still finds no configuration | `init` saves the configuration under the name `load_config` reads (`test_init` at todo/test_main.py:47 expects `.todo_config.json` to exist) | high, not executed | Config.SaveAsWrittenInvisible | Config.SavedConfigLoads |
