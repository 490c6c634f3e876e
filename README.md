# tasq queue storage engine in Dafny

tasq keeps a FIFO task queue in a single todo.txt file, one task per line.
This project models two parts of it:

- **The line codec** (`src/tasq/todotxt.py`). A `Task` record is parsed from
  a line. `parse` peels, in order:
  - the completion marker `x`, whitespace, a `DDDD-DD-DD` date and whitespace;
  - the priority `(A)`..`(Z)` and whitespace;
  - a creation date and whitespace.

  It then scans what is left for `+project`, `@context` and `key:value`.
  `create` builds a new task, `mark_complete` folds the priority into
  `pri:X`, `to_line` writes a task back, and `to_dict` gives its dictionary
  form.
- **The storage layer** (`src/tasq/storage.py`). `TodoFile` is a class whose
  state is the file: whether it exists and its lines. Its methods read the
  tasks, replace all lines, append one task, find the first line still in the
  queue, and complete a line in place. The module-level helpers sit beside it.

The modules are:

| module | file | what it holds |
|---|---|---|
| `Text` | `text.dfy` | characters, `str.strip()`, `Join`, substring test |
| `Patterns` | `patterns.dfy` | the six regular expressions, as anchored prefix matchers and left-to-right scanners |
| `OrderedDict` | `ordered_dict.dfy` | Python `dict` as an association list in insertion order |
| `TodoTxt` | `todotxt.dfy` | `Task`, the codec operations as functions, and the step-by-step code as methods proved equal to them |
| `TodoTxtProperties` | `todotxt_properties.dfy` | what the codec guarantees across operations |
| `Storage` | `storage.dfy` | the `TodoFile` class, its methods and the module helpers |

Environment inputs become parameters:

- `date.today().isoformat()` is the parameter `today`. The operations accept
  any string for it. The statements about the line that comes out
  (`FormatNewTask`, `MarkCompleteLine` and the round-trip lemmas) assume it is
  a `DDDD-DD-DD` date token, as `isoformat()` gives.
- The operating system's answer to a write (temp file, `fsync`, rename,
  append) is the parameter `writeOk`. A write that fails leaves the file as it
  was.
- The advisory lock is not modelled (see "## Left out").

Two facts about the code are modelled literally:

- `get_next_incomplete` and `is_completed` only look for a leading `x `.
  `parse`, in contrast, also demands a date after the marker, and it accepts a
  tab in place of the space. So `x call mom` is skipped by the queue although
  it parses as incomplete (`MarkerWithoutDate`). A line that starts with `x`,
  a tab and a date parses as completed but is still offered by the queue
  (`TabAfterMarker`).
- In `KEY_VALUE_PATTERN`, the `(?!\S*://)` lookahead is tried only after the
  greedy value has taken every non-space character. So it never rejects a
  match, and `https://x` yields the pair (`https`, `//x`) (`UrlIsKeyValue`).

## Model

| member | source | states |
|---|---|---|
| `Text.Strip` | src/tasq/todotxt.py:67 | `str.strip()`: the result neither starts nor ends with whitespace, and is no longer than the input |
| `Text.StripSlice` | src/tasq/todotxt.py:73 | what `strip()` keeps is the slice between a leading and a trailing all-whitespace part of the input |
| `Text.StripIdempotent` | src/tasq/todotxt.py:260 | stripping twice is stripping once |
| `Text.StripEmptyIff` | src/tasq/storage.py:126 | a line strips to nothing exactly when it is all whitespace: the blank-line test of `read_tasks` |
| `Text.ReplaceNewlines` | src/tasq/todotxt.py:122 | the same length; no `\n` or `\r` left; each line break became a space; every other character is kept |
| `Text.Join` | src/tasq/todotxt.py:230 | `" ".join(parts)`: a single part is returned as it is; the general case is stated by `JoinConcat` |
| `Text.JoinConcat` | src/tasq/todotxt.py:230 | joining two non-empty lists of parts is joining each, with one separator between them |
| `Text.Contains` | src/tasq/todotxt.py:222-225 | Python `p in s`: true exactly when `p` occurs at some position of `s` |
| `Patterns.MatchDate` | src/tasq/todotxt.py:21 | DATE_PATTERN matches exactly when the string starts with a date token and whitespace; the capture is the token; the rest follows the maximal whitespace run |
| `Patterns.MatchPriority` | src/tasq/todotxt.py:20 | PRIORITY_PATTERN matches exactly `(X)`, with X in A-Z, then whitespace; it captures X and drops the greedy whitespace |
| `Patterns.MatchCompleted` | src/tasq/todotxt.py:19 | COMPLETED_PATTERN matches exactly when the string is `x`, a whitespace run, a date token and whitespace; it captures a date token, and its rest is a proper suffix with no leading whitespace |
| `Patterns.MatchCompletedCapture` | src/tasq/todotxt.py:19 | the capture is the date right after the maximal whitespace run that follows `x`, and the whitespace after the capture is consumed |
| `Patterns.MatchDateOf` | src/tasq/todotxt.py:21 | every date token, whitespace run and remainder not starting with whitespace is matched and split back into its parts |
| `Patterns.MatchPriorityOf` | src/tasq/todotxt.py:20 | every `(X)`, whitespace run and remainder not starting with whitespace is matched and split back into its parts |
| `Patterns.MatchCompletedOf` | src/tasq/todotxt.py:19 | `x`, any whitespace run, a date, whitespace and a remainder: matched, with that date and that remainder |
| `Patterns.SpacedRestUnique` | src/tasq/todotxt.py:19-21 | the greedy trailing `\s+` leaves exactly one possible remainder |
| `Patterns.FindTags` | src/tasq/todotxt.py:22-23 | every `+`/`@` capture is a non-empty run without whitespace |
| `Patterns.FindTagsByWords` | src/tasq/todotxt.py:22-23 | `findall` of `\+(\S+)` / `@(\S+)` equals the word-by-word reference: at most one tag per word, in order, duplicates kept, running to the word's end (so `+a+b` gives `a+b`) |
| `Patterns.KeyValueAt` | src/tasq/todotxt.py:25 | one KEY_VALUE_PATTERN match tried at the start of the text: when found, the key is non-empty and key, `:` and value fit in the text; the full meaning is stated by `KeyValueAtMeaning` |
| `Patterns.KeyValueAtMeaning` | src/tasq/todotxt.py:25 | a key-value match is a key `[A-Za-z_][A-Za-z0-9_]*`, then `:`, then a non-empty value that runs to the next whitespace or the end; there is none exactly when no key is followed by `:` and a non-space character |
| `Patterns.FindKeyValues` | src/tasq/todotxt.py:25 | the `finditer` scan, which tracks whether the `(?<!\S)` look-behind holds: no more pairs than characters, each with a non-empty key |
| `Patterns.KeyValueMatches` | src/tasq/todotxt.py:101 | `finditer` over the whole text: no more pairs than characters, each with a non-empty key; which pairs, in which order, is stated by `KeyValueMatchesByWords` |
| `Patterns.KeyValueMatchesByWords` | src/tasq/todotxt.py:25 | `finditer` of KEY_VALUE_PATTERN, with its `(?<!\S)` look-behind, yields exactly one pair per whitespace-separated word that is a whole `key:value`, in word order |
| `OrderedDict.Lookup` | src/tasq/todotxt.py:214-226 | `d.get(k)` is present exactly when `k` is a key, with a value stored under `k` |
| `OrderedDict.Put` | src/tasq/todotxt.py:103 | `d[k] = v` keeps the size of the dict when `k` is a key and adds one entry otherwise; values and order are stated by `PutLookup` and `PutKeys` |
| `OrderedDict.PutLookup` | src/tasq/todotxt.py:103 | after `d[k] = v`, `k` maps to `v` and every other key keeps its value |
| `OrderedDict.PutKeys` | src/tasq/todotxt.py:103 | `d[k] = v` keeps an existing key in place and appends a new one |
| `OrderedDict.FromPairs` | src/tasq/todotxt.py:101-103 | the dict filled by `for k, v in pairs: d[k] = v` has at most one entry per assignment; its values and key order are stated by `FromPairsLookup` and `FromPairsKeys` |
| `OrderedDict.FromPairsLookup` | src/tasq/todotxt.py:101-103 | the dict filled by the loop maps each key to the last value assigned to it |
| `OrderedDict.FromPairsKeys` | src/tasq/todotxt.py:101-103 | its keys are distinct, in the order of their first assignment |
| `TodoTxt.PeelCompleted` | src/tasq/todotxt.py:76-80 | the completion step keeps a date token and cuts off a suffix; with no match the text is unchanged |
| `TodoTxt.PeelPriority` | src/tasq/todotxt.py:83-86 | the priority step keeps one letter A-Z and cuts off a suffix; with no match the text is unchanged |
| `TodoTxt.PeelDate` | src/tasq/todotxt.py:89-92 | the creation-date step keeps a date token and cuts off a suffix; with no match the text is unchanged |
| `TodoTxt.Prefixes` | src/tasq/todotxt.py:72-92 | the three prefix steps leave a suffix of the line, trimmed when the line is, and give well-formed dates and priority |
| `TodoTxt.KeyValuesOf` | src/tasq/todotxt.py:101-103 | the collected key-values never repeat a key |
| `TodoTxt.Parsed` | src/tasq/todotxt.py:52-108 | `parse` is total; `text` is the stripped line; `completed` holds exactly when COMPLETED_PATTERN matches it, and exactly when a completion date is set; the dates are date tokens, the priority one letter A-Z, and the keys distinct |
| `TodoTxt.Created` | src/tasq/todotxt.py:110-150 | `create` gives an incomplete task without completion date; its text has no line break and no surrounding whitespace; it has a priority exactly when the cleaned text starts with `(X)` and whitespace, and then the text is what follows; the creation date is `today` exactly when asked for; projects, contexts and key-values are scanned from that text |
| `TodoTxt.MarkComplete` | src/tasq/todotxt.py:152-180 | a completed task is returned unchanged; otherwise it becomes completed on `today` with no priority; text, creation date, projects and contexts are kept; `pri` holds the old priority if there was one, and every other key keeps its value; an existing `pri` key keeps its place in the dict and a new one is added at the end, as in `to_dict` |
| `TodoTxt.IsNewlyCreated` | src/tasq/todotxt.py:232-239 | a plain definition: the text does not start with `x `, a priority or a date; it is related to `parse` by `NewlyCreatedIffNoPrefix` |
| `TodoTxt.ExtractDescription` | src/tasq/todotxt.py:241-260 | the description has no surrounding whitespace |
| `TodoTxt.Rebuilt` | src/tasq/todotxt.py:217-226 | the description comes first, followed by at most one `pri:` part |
| `TodoTxt.Header` | src/tasq/todotxt.py:188-204 | the leading parts: one for `x` and the completion date of a completed task with a date, one for `(P)` of an incomplete task with a priority (never for a completed one), one for the creation date when set, and nothing else; the marker or `(P)` comes first and the creation date last |
| `TodoTxt.Payload` | src/tasq/todotxt.py:206-228 | one or two description parts: first the stored text, or for a completed task that is not newly created the extracted description; a second part is only `pri:` and the task's `pri` value, for a completed task; a completed newly created task gets it exactly when it has a `pri` key |
| `TodoTxt.Serialized` | src/tasq/todotxt.py:182-239 | `to_line` of a completed task with a completion date starts with `x`, the date and a space; of an incomplete task with a priority, with `(P)` and a space; otherwise with the creation date and a space, if there is one |
| `TodoTxt.SerializedIncomplete` | src/tasq/todotxt.py:188-230 | an incomplete task is written as the optional `(P) `, the optional creation date and a space, then its text |
| `TodoTxt.ToDict` | src/tasq/todotxt.py:262-277 | the eight fields under their names, in declaration order; the task can be read back from them unchanged |
| `TodoTxt.IsCompletedLine` | src/tasq/todotxt.py:281-290 | `is_completed` holds exactly when the stripped line starts with `x` and a space |
| `TodoTxt.ParseTask` | src/tasq/todotxt.py:293-303 | the dictionary of `parse_task` reads back as the parsed task |
| `TodoTxt.FormatNewTask` | src/tasq/todotxt.py:306-317 | `format_new_task` writes the created task's optional `(P) `, then the date and a space if asked for, then its cleaned text |
| `TodoTxt.MarkCompleteLine` | src/tasq/todotxt.py:320-331 | the completed line starts with `x`, a date and a space: the line's own completion date if it was already completed, `today` otherwise; the whole line is stated by `CompletedLineShape` and `MarkCompleteNewLine` |
| `TodoTxt.CollectKeyValues` | src/tasq/todotxt.py:101-103 | the `finditer` loop builds the dict of the scanned key-values |
| `TodoTxt.Parse` | src/tasq/todotxt.py:52-108 | `parse` as written computes the parsed task |
| `TodoTxt.MatchPrefixes` | src/tasq/todotxt.py:72-92 | the reassignments of `remaining` compute the three prefix steps in order |
| `TodoTxt.PeelCompletedStep` | src/tasq/todotxt.py:76-80 | the completion-marker branch computes the completion step |
| `TodoTxt.PeelPriorityStep` | src/tasq/todotxt.py:83-86 | the priority branch computes the priority step |
| `TodoTxt.PeelDateStep` | src/tasq/todotxt.py:89-92 | the creation-date branch computes the creation-date step |
| `TodoTxt.Create` | src/tasq/todotxt.py:110-150 | `create` as written computes the created task |
| `TodoTxt.ToLine` | src/tasq/todotxt.py:182-230 | the `append`/`insert` on `parts` and the final join compute the serialised line |
| `TodoTxt.TailParts` | src/tasq/todotxt.py:206-228 | the two description paths, picked by `_is_newly_created` (todotxt.py:232-239), compute the description parts |
| `TodoTxt.AppendDescription` | src/tasq/todotxt.py:217-226 | the completed-task path appends the description, then `pri:P` unless the description already contains it |
| `TodoTxtProperties.ParsedPrefixPositions` | src/tasq/todotxt.py:83-92 | the priority is `(X)` with X in A-Z and whitespace, right after the optional completion prefix and nowhere else; the creation date is a date token and whitespace right after that |
| `TodoTxtProperties.NewlyCreatedIffNoPrefix` | src/tasq/todotxt.py:232-239 | for a text that neither starts with `x ` nor with a completion prefix, `_is_newly_created` holds exactly when the prefix steps of `parse` find no priority and no date in it |
| `TodoTxtProperties.CompletionNeedsDate` | src/tasq/todotxt.py:76-80 | `x call mom` has no date after the marker, so it is not completed |
| `TodoTxtProperties.ParsedScans` | src/tasq/todotxt.py:95-103 | projects and contexts are the per-word tags of the remainder, in order and with duplicates; the key-values keep each key at its first position, with its last value |
| `TodoTxtProperties.RemainderScans` | src/tasq/todotxt.py:135-140 | the same three scans over any remainder, as in `create` |
| `TodoTxtProperties.KeyValueOfWord` | src/tasq/todotxt.py:25 | a whole word `key:value` gives exactly that one pair |
| `TodoTxtProperties.UrlIsKeyValue` | src/tasq/todotxt.py:25 | the URL lookahead never rejects: `https://x` gives key `https` and value `//x` |
| `TodoTxtProperties.ExtractDescriptionOfParsed` | src/tasq/todotxt.py:241-260 | for a parsed task, `_extract_description` gives back exactly the remainder that `parse` scanned |
| `TodoTxtProperties.MarkCompleteIdempotent` | src/tasq/todotxt.py:162-163 | completing twice, on any two dates, is completing once |
| `TodoTxtProperties.CreatedRoundTrip` | src/tasq/todotxt.py:188-230 | a created task with a non-empty description and a creation date is written `(P) D text` or `D text`; parsing that line gives back its priority, creation date, projects, contexts and key-values, not completed |
| `TodoTxtProperties.NewLinePrefixes` | src/tasq/todotxt.py:72-92 | parsing `[(P) ]D text` peels exactly the priority and the date and leaves `text` |
| `TodoTxtProperties.CompletedLineShape` | src/tasq/todotxt.py:217-226 | completing a parsed incomplete line that starts with a priority or a date writes `x T [D] description [pri:P]`: no `(P)`, the creation date kept, the description with its prefixes removed, and `pri:P` only when the description does not contain it already |
| `TodoTxtProperties.CompletedNewLine` | src/tasq/todotxt.py:188-215 | a completed task with a completion date whose text is a bare description is written `x T [D] text`, then ` pri:P` whenever its dict has a `pri` key |
| `TodoTxtProperties.MarkCompleteNewLine` | src/tasq/todotxt.py:320-331 | completing a line that is a bare description: an incomplete one becomes `x today text`, then ` pri:P` when the text has a `pri` key (so `Task` becomes `x today Task`); a completed one keeps its dates |
| `TodoTxtProperties.BarePriDoubled` | src/tasq/todotxt.py:211-215 | the newly created path does not check the text: `Buy pri:A` is completed as `x today Buy pri:A pri:A` |
| `TodoTxtProperties.JoinedRebuilt` | src/tasq/todotxt.py:217-226 | the joined description part is the description, then ` pri:P` unless the description contains `pri:P` |
| `TodoTxtProperties.MarkerWithoutDate` | src/tasq/todotxt.py:281-290 | `x ` followed by a word that does not start with a digit passes `is_completed` but does not parse as completed |
| `TodoTxtProperties.TabAfterMarker` | src/tasq/todotxt.py:281-290 | `x`, a tab and a date parse as completed on that date, but fail `is_completed` |
| `TodoTxtProperties.CompletedTestsAgree` | src/tasq/todotxt.py:281-290 | when the marker of a completed line is followed by a plain space, `is_completed` agrees with `parse` |
| `TodoTxtProperties.CompletedLineIsMarked` | src/tasq/todotxt.py:320-331 | whatever line is completed, the line written for it passes `is_completed` |
| `Storage.IsQueued` | src/tasq/storage.py:192 | a plain definition: the stripped line is non-empty and does not start with `x `; compared with `parse` by `MarkerWithoutDate`, `TabAfterMarker` and `CompletedTestsAgree` |
| `Storage.NonBlank` | src/tasq/storage.py:126 | the lines `read_tasks` keeps, never more than the file has; exactly the non-blank ones, in order, by `NonBlankMembers` and `NonBlankConcat` |
| `Storage.FirstQueued` | src/tasq/storage.py:190-195 | the first line whose stripped text is non-empty and does not start with `x `; every earlier line is blank or starts with `x `; none when no line qualifies |
| `Storage.SelectMembers` | src/tasq/storage.py:126 | an element is selected exactly when it sits at a flagged position |
| `Storage.NonBlankMembers` | src/tasq/storage.py:126 | the lines `read_tasks` keeps are exactly the non-blank ones |
| `Storage.NonBlankConcat` | src/tasq/storage.py:126 | they are kept in file order: two stretches of lines give the first one's kept lines, then the second one's |
| `Storage.QueueAdvances` | src/tasq/storage.py:181-222 | completing the line that `get_next_incomplete` offered takes it out of the queue: the next offer is a later line, or none |
| `Storage.ParseNonBlankLines` | src/tasq/storage.py:126 | the comprehension parses exactly the non-blank lines, in order |
| `Storage.SerializeAll` | src/tasq/storage.py:162 | the comprehension writes one line per task, `to_line` of it, in order |
| `Storage.TodoFile.constructor` | src/tasq/storage.py:88-94 | a handle on a file in a given state, present or absent with no lines |
| `Storage.TodoFile.Exists` | src/tasq/storage.py:96-102 | whether the file is present |
| `Storage.TodoFile.ReadLines` | src/tasq/storage.py:104-114 | the file's lines, or FileNotFoundError when it is absent |
| `Storage.TodoFile.ReadTasks` | src/tasq/storage.py:116-126 | `parse` of exactly the non-blank lines, in file order, or FileNotFoundError |
| `Storage.TodoFile.WriteLines` | src/tasq/storage.py:128-154 | all or nothing: on success the file exists and holds exactly the given lines; on failure it is as it was |
| `Storage.TodoFile.WriteTasks` | src/tasq/storage.py:156-163 | on success the file holds `to_line` of each task, in order; on failure it is as it was |
| `Storage.TodoFile.AppendTask` | src/tasq/storage.py:165-179 | an absent file counts as empty; on success the file exists and has the task's line added at the end; on failure it is as it was |
| `Storage.TodoFile.GetNextIncomplete` | src/tasq/storage.py:181-195 | none for an absent file; otherwise the index of the first queued line and its parse, or none when no line is queued |
| `Storage.TodoFile.CompleteTask` | src/tasq/storage.py:197-222 | FileNotFoundError for an absent file and IndexError for an index outside the lines, both without a write; in range, only the line at `index` changes, to `to_line(mark_complete(parse(line)))`, and the completed task is returned; a failed write changes nothing |
| `Storage.ReadLines` | src/tasq/storage.py:226-236 | the module helper reads the file's lines, or FileNotFoundError |
| `Storage.WriteLinesAtomic` | src/tasq/storage.py:239-247 | the module helper replaces all lines, all or nothing |
| `Storage.AppendLine` | src/tasq/storage.py:250-259 | the appended line is `to_line(parse(line))`, not the raw line; a failed write changes nothing |
| `Storage.UpdateLine` | src/tasq/storage.py:262-275 | FileNotFoundError for an absent file and IndexError for an index outside the lines, both without a write; in range, only the line at `index` changes, to exactly the new line; a failed write changes nothing |

## Left out

- Temporary files, `fsync`, `os.replace`, `mkdir` and temp-file cleanup in `write_lines` (storage.py:136-154) are operating-system I/O. Only their effect on the content is modelled: the lines are replaced on success and untouched on failure (`writeOk`).
- `file_lock`, `_lock_file` and `_unlock_file` (storage.py:16-76) are advisory inter-process locking. The model has no lock and no concurrency. Failures of `_lock_file` and `_unlock_file` are caught (storage.py:59-62 and 68-71), and so are failures to remove the lock file (storage.py:73-76).
- Creating the lock file (storage.py:58) is not inside that `try`. When it fails, for example in a read-only directory, `append_task`, `complete_task` and `update_line` end with an OS error before anything is read or checked. So `complete_task(5)` on a two-line file there raises `PermissionError`, not `IndexError`. The model does not have this outcome.
- Splitting the file into lines, stripping `\n`/`\r` from their ends and UTF-8 decoding in `read_lines` (storage.py:113-114) are I/O. The lines are the state of `TodoFile`. For the same reason, a line that contains a line break is stored as one line, and the model never reads it back split. This holds for a serialised task and equally for the raw lines given to `Storage.TodoFile.WriteLines`, `Storage.WriteLinesAtomic` and `Storage.UpdateLine`, which stores `new_line` unchanged (storage.py:274).
- An append that fails half-way, and an append to a file whose last line lacks a newline, are not modelled. A failed append leaves the lines as they were.
- `date.today()` (todotxt.py:132 and 174) is the parameter `today` and is not read from a clock.
- Python's Unicode-aware `\s`, `\d` and `str.strip()` are modelled as one whitespace class (space, tab, `\n`, `\r`, `\v`, `\f`) and ASCII digits. Left out are the ASCII separators `\x1c`, `\x1d`, `\x1e` and `\x1f`, which Python also counts as whitespace, and all non-ASCII whitespace and digits.
- `TodoTxt.ExtractDescription`: its own contract states only that the description is trimmed. What it returns for a parsed task is stated by `TodoTxtProperties.ExtractDescriptionOfParsed`.
- `TodoTxt.Serialized`: its own contract states only how the line starts. The whole line is stated by `SerializedIncomplete` for every incomplete task, by `CompletedNewLine` for a completed task whose text is a bare description, and by `CompletedLineShape` for completing a parsed line that starts with a priority or a date. For other completed tasks, the line is given only by the definition. These are a completed parsed line written back, and a completed task without a completion date.
- `Storage.TodoFile.AppendTask`, `Storage.TodoFile.CompleteTask` and `Storage.UpdateLine` run in the source under the lock; `get_next_incomplete` takes no lock. Without the lock, the model reads and writes the lines in one step.
- src/tasq/cli.py and src/tasq/config.py are not part of this model: command dispatch, output rendering, and path lookup from the environment.
- `skip_first_incomplete` and `get_all_tasks_with_indices` are called from the command line layer but not defined in storage.py. They are not modelled.
