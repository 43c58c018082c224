# Learning-capture hooks and the implement-loop controller, in Dafny

This project models three hooks of a coding-assistant plugin.

- **The learning stop hook** (`skills/learn/hooks/stop_learn_reflect.py`). At the end of a session it reads the
  session transcript, one JSON record per line, and looks at it in three ways, in strict priority order:
  - **flow 1 (`f1`)**: user corrections, a case-insensitive whole-word match against the
    `correction-keywords` list;
  - **flow 1b (`fv`)**: voluntary captures, a case-insensitive substring match against the
    `voluntary-keywords` phrases;
  - **flow 2 (`f2`)**: self-discovered learnings, assistant messages that carry the three labelled
    fields named by `learning-fields`.

  All three lists come from `<!-- name: value -->` comments in the rules source. User messages are
  filtered first: the text must be non-empty, at most 500 characters, and carry no teammate marker.
  What a flow has already captured is recorded in an append-only seen ledger of
  `session<TAB>flow<TAB>index` lines. A run writes at most one block, appended to
  `pending-capture.md` (flows 1 and 1b, with the surrounding conversation as context) or to
  `unprocessed-corrections.md` (flow 2). It marks what it wrote in the ledger, and does nothing while an
  implement loop is active.
- **The voluntary-capture helper** (`skills/learn/hooks/mark_voluntary_seen.py`). It runs the flow 1b
  classifier mid-session and appends the new matches to the same ledger, so the stop hook does not
  capture them again.
- **The implement-loop controller** (`skills/implement-loop/hooks/loop_controller.py`). It is a small state
  machine over the loop-state record. Each invocation either deletes the record and ends the session
  (exit 0), or bumps `iteration`, prints the command and continues the loop (exit 2).

Modules, one per file:

| file | module | what it holds |
|---|---|---|
| `wrappers.dfy` | `Wrappers` | `Option`, used for absent files, missing keys and failed parses |
| `strings.dfy` | `Strings` | ASCII `strip`, `split`, `join`, slicing, `str(n)`/`int(s)`, substring search, the line iteration of a file |
| `transcript.dfy` | `Transcript` | message records, `extract_text`, `load_transcript` |
| `rules.dfy` | `Rules` | `read_comment` and the comma-separated lists |
| `classifier.dfy` | `Classifier` | the false-positive filters, whole-word and substring matching, the positive indices |
| `indices.dfy` | `Indices` | filtering the seen indices out of a list |
| `ledger.dfy` | `Ledger` | the ledger format, `load_seen`, `mark_seen` as a value, and the mark-then-load round trip |
| `context.dfy` | `Context` | `build_context` |
| `learnings.dfy` | `Learnings` | flow 2: the labels, field extraction, learning blocks |
| `documents.dfy` | `Documents` | the document headers and blocks; the `Store` class, which holds the three files and appends to them in place |
| `stop_hook.dfy` | `StopHook` | the stop hook's `main`: the spec function `Run` and the method `Invoke`, plus the lemmas about repeated runs |
| `mark_voluntary.dfy` | `MarkVoluntary` | the helper's `main`: `Run`, `Invoke`, and its agreement with the stop hook |
| `loop_controller.dfy` | `LoopControl` | the controller: `Transition` and the `Controller` class with `Step` |

## How the model is built

**Spec functions and methods.** Each `main` is a spec function (`StopHook.Run`, `MarkVoluntary.Run`,
`LoopControl.Transition`) and a method that does the work step by step against mutable state:
- `StopHook.Invoke` and `MarkVoluntary.Invoke` work on a `Documents.Store`. Its fields hold the three
  files, with `None` for a file that does not exist.
- `LoopControl.Controller.Step` works on the controller's `stateFile`.

Each method's postcondition is that the new state equals the spec function applied to the old state. The
loops of the source (`load_transcript`, `load_seen`, the classification loops, flow 2's extraction loop,
`build_context`, `mark_seen`, the rendering of the learning blocks) are methods with loop invariants. Each
is tied to a recursive function about which the properties are proved.

**Inputs as parameters.** These are passed in rather than discovered:
- the rules source text (`None` when it is missing or unreadable);
- the loop-state file;
- the newest transcript and its session id;
- the project root;
- today's date, already rendered by `strftime("%d %b %Y")`;
- the JSON decoder, as a function from a stripped line to an optional record.

**Matching.** The comment reader follows the regex `<!--\s*name:\s*(.*?)\s*-->` structurally:
- the leftmost start wins;
- the value takes the shortest extent that `\s*-->` can follow;
- the value holds no newline;
- the same regex engine is not modelled.

Word boundaries, whitespace and case-insensitivity are ASCII.

**Blank-only lists are reproduced as the source has them.** In the stop hook, a comment whose entries are
all blank, such as `<!-- correction-keywords: , -->`, builds the pattern `\b()\b`. A blank-only voluntary
list builds the empty pattern. Both match almost every text, and `Classifier.Alternatives` keeps that one
empty alternative. The helper stops instead when it has no phrases, so the two disagree on such a comment;
`MarkVoluntary.BlankPhrasesDiverge` states that difference.

**Exit codes.** The stop hook always exits 0. Its module docstring says so
(`skills/learn/hooks/stop_learn_reflect.py:4`), and every path of `main` ends in `sys.exit(0)`. The
end-to-end test file still expects exit 2 with a directive on stdout; this model follows the code.

## Model

| member | source | states |
|---|---|---|
| Transcript.ExtractText | skills/learn/hooks/stop_learn_reflect.py:21-29 | a string content is returned unchanged; content that is neither a string nor a list gives `""` |
| Transcript.ExtractTextJoinsTexts | skills/learn/hooks/stop_learn_reflect.py:21-29 | a block list gives the newline-join, in order, of the `text` (default `""`) of its `type == "text"` blocks, the same texts flow 2 inspects |
| Transcript.LoadTranscript | skills/learn/hooks/stop_learn_reflect.py:38-53 | an unreadable file gives no messages; otherwise the records of its lines, in file order |
| Transcript.DecodeLines | skills/learn/hooks/stop_learn_reflect.py:43-50 | each line is stripped; blank lines and lines the decoder rejects are skipped; the rest are kept in order |
| Transcript.LoadAppend | skills/learn/hooks/stop_learn_reflect.py:38-53 | appending lines to a transcript whose last line is complete keeps every earlier record at its index, so ledger indices stay valid as a session grows |
| Rules.ReadComment | skills/learn/hooks/stop_learn_reflect.py:32-35 | `""` when no comment matches; the value read holds no newline and has no surrounding whitespace |
| Rules.FirstCommentSpec | skills/learn/hooks/stop_learn_reflect.py:34 | the search stops at the leftmost position where a comment matches, and finds none only when no position matches |
| Rules.ReadCommentSource | skills/learn/hooks/stop_learn_reflect.py:32-35 | a non-blank value read is the value of a comment that occurs in the text |
| Rules.CsvEntries | skills/learn/hooks/stop_learn_reflect.py:202 | the keyword list: each entry non-empty, stripped and comma-free |
| Rules.CsvEntriesMembers | skills/learn/hooks/stop_learn_reflect.py:202 | the entries are exactly the non-blank stripped pieces of the comma split |
| Rules.CsvEntriesOfJoin | skills/learn/hooks/stop_learn_reflect.py:202 | non-blank, stripped, comma-free entries joined on `,` parse back to the same list, in order |
| Rules.FieldNames | skills/learn/hooks/stop_learn_reflect.py:275 | one name per comma-separated piece, blank names kept: the k-th name is the k-th piece stripped, so it is stripped and comma-free |
| Rules.FieldNamesOfJoin | skills/learn/hooks/stop_learn_reflect.py:275 | stripped, comma-free names joined on `,` parse back to the same names, in order |
| Classifier.Alternatives | skills/learn/hooks/stop_learn_reflect.py:203-204 | the alternatives of the joined pattern are the entries, or one empty alternative when there are none |
| Classifier.PositivesSpec | skills/learn/hooks/stop_learn_reflect.py:206-216 | an index is positive iff its record has `type == "user"`, non-empty text of at most 500 characters without `<teammate-message`, and a match; positives ascend |
| Classifier.CollectPositives | skills/learn/hooks/stop_learn_reflect.py:206-216 | the classification loop collects exactly the positives, in ascending order |
| Classifier.TeammateNeverPositive | skills/learn/hooks/stop_learn_reflect.py:212-213 | a message with the teammate marker is never positive, whatever it matches |
| Classifier.NoInsideWords | skills/learn/hooks/stop_learn_reflect.py:203-204 | in the example sentence's words that hold "no" ("not", "know", "another", "cannot") the whole-word keyword "no" matches none; as a substring phrase it matches "cannot" |
| Classifier.NotWholeWordNo | skills/learn/hooks/stop_learn_reflect.py:203-204 | "no" never matches whole-word inside a word of three or more lower-case letters |
| Classifier.NopeMatches | skills/learn/hooks/stop_learn_reflect.py:203-204 | the keyword "nope" matches "Nope, line 12" case-insensitively with word boundaries |
| Indices.WithoutMembers | skills/learn/hooks/stop_learn_reflect.py:218-219 | the new indices are exactly the listed ones that are not in the seen set |
| Indices.WithoutIncreasing | skills/learn/hooks/stop_learn_reflect.py:218-219 | filtering keeps an ascending list ascending |
| Indices.WithoutAll | skills/learn/hooks/stop_learn_reflect.py:218-219 | when every listed index is seen, nothing is new |
| Indices.WithoutMonotone | skills/learn/hooks/stop_learn_reflect.py:218-219 | when nothing is new, seeing more keeps nothing new |
| Ledger.Marked | skills/learn/hooks/stop_learn_reflect.py:73-78 | marking creates the ledger if absent and keeps its old content as a prefix |
| Ledger.EntryLineIsOneLine | skills/learn/hooks/stop_learn_reflect.py:78 | an entry is exactly one line when session and flow hold no newline |
| Ledger.ParseEntryLine | skills/learn/hooks/stop_learn_reflect.py:62-65 | reading back an entry line gives its index exactly when session and flow are the ones asked for |
| Ledger.MarkThenLoad | skills/learn/hooks/stop_learn_reflect.py:56-78 | after marking, the entries read for a pair are the old ones plus, for the marked pair, the marked indices in order (valid session id, ledger empty or newline-terminated) |
| Ledger.SeenAfterMark | skills/learn/hooks/stop_learn_reflect.py:56-78 | `load_seen` after `mark_seen(s, f, I)` is the old set united with `I` for `(s, f)` and unchanged for every other pair; the ledger stays newline-terminated |
| Ledger.LoadSeen | skills/learn/hooks/stop_learn_reflect.py:56-70 | an absent ledger records nothing; otherwise its lines are scanned |
| Ledger.SeenOfLines | skills/learn/hooks/stop_learn_reflect.py:61-67 | the seen set is the integer third fields of the lines that split into exactly three tab-separated parts naming the session and flow |
| Context.ExcerptShape | skills/learn/hooks/stop_learn_reflect.py:86-87 | an assistant excerpt starts with `A: [` and, with at most 200 characters of text and the closing `]`, has at most 205 characters |
| Context.BuildContext | skills/learn/hooks/stop_learn_reflect.py:81-94 | per index, in order: the preceding assistant excerpt if any, the `USER:` line, the following assistant excerpt if any, a blank line; joined on newlines |
| Context.ContextUserTexts | skills/learn/hooks/stop_learn_reflect.py:88-89 | the `USER:` elements of the `lines` list, before `"\n".join`, carry the full texts of the captured messages, once each, in index order |
| Context.ContextLineShapes | skills/learn/hooks/stop_learn_reflect.py:83-94 | every element of the `lines` list, before `"\n".join`, is blank, an excerpt of at most 205 characters, or a `USER:` line |
| Learnings.LearningLabels | skills/learn/hooks/stop_learn_reflect.py:271-281 | flow 2 runs iff the field list is non-empty and has at least three comma-separated names; the labels are the first three pieces, stripped, each followed by `": "` |
| Learnings.LabelsOfJoin | skills/learn/hooks/stop_learn_reflect.py:271-281 | a field list written from three or more stripped, comma-free names gives exactly the labels of its first three names |
| Learnings.FieldValue | skills/learn/hooks/stop_learn_reflect.py:302-304 | a field value is one stripped line |
| Learnings.FieldValueOf | skills/learn/hooks/stop_learn_reflect.py:302-304 | a value written after the label's first occurrence and followed by a newline is read back exactly, even when the label occurs again later |
| Learnings.Title | skills/learn/hooks/stop_learn_reflect.py:316 | the title is the root cause up to its first `.`, cut to 80 characters: a prefix without `.` that has 80 characters, or is the whole root cause, or stops just before a `.` |
| Learnings.TitleChars | skills/learn/hooks/stop_learn_reflect.py:316 | the title holds no character the root cause lacks |
| Learnings.FirstQualifying | skills/learn/hooks/stop_learn_reflect.py:300-306 | the chosen text is one of the message's texts carrying all three labels; there is none iff no text carries them all |
| Learnings.FirstQualifyingIsFirst | skills/learn/hooks/stop_learn_reflect.py:300-306 | the chosen text is the first that carries all three labels, as the `break` selects |
| Learnings.LearningOfYields | skills/learn/hooks/stop_learn_reflect.py:286-306 | a message gives a learning iff it is an unseen assistant record with a qualifying text, and the learning carries its index |
| Learnings.LearningsSpec | skills/learn/hooks/stop_learn_reflect.py:283-306 | one learning per yielding message and no other, in ascending index order, each with stripped single-line values and each exactly the learning its own message yields |
| Learnings.LearningsAfterMark | skills/learn/hooks/stop_learn_reflect.py:289 | once the learnings' indices are seen, flow 2 collects nothing |
| Learnings.CollectLearnings | skills/learn/hooks/stop_learn_reflect.py:283-306 | the extraction loop, with its inner loop and `break`, collects exactly the learnings of the spec |
| Learnings.RenderBlocks | skills/learn/hooks/stop_learn_reflect.py:314-325 | the learning blocks, in order, joined by blank lines |
| Learnings.BlocksOfAt | skills/learn/hooks/stop_learn_reflect.py:314-323 | the k-th block renders the k-th learning |
| Learnings.LearningBlockLines | skills/learn/hooks/stop_learn_reflect.py:317-322 | a block splits back into four lines: the titled header with `[msg:idx]` and the three labelled values |
| Documents.Appended | skills/learn/hooks/stop_learn_reflect.py:108-116 | the document exists afterwards and its old content is a prefix of the new |
| Documents.HeaderOnce | skills/learn/hooks/stop_learn_reflect.py:108-114 | the header is written by the append that creates the document and never again |
| Documents.AppendedKeepsHeader | skills/learn/hooks/stop_learn_reflect.py:108-116 | a document that starts with its header keeps starting with it |
| Documents.Store.MarkSeen | skills/learn/hooks/stop_learn_reflect.py:73-78 | the ledger becomes the old ledger (or empty) followed by one entry line per index, in order, and nothing else changes |
| Documents.Store.WritePending | skills/learn/hooks/stop_learn_reflect.py:97-116 | the pending document gets its header iff it was absent, then the dated block |
| Documents.Store.WriteCorrections | skills/learn/hooks/stop_learn_reflect.py:328-344 | the corrections document gets its header iff it was absent, then the session block |
| StopHook.NewFor | skills/learn/hooks/stop_learn_reflect.py:199-201 | a blank comment disables a keyword flow; new indices always lie inside the transcript |
| StopHook.NewForSpec | skills/learn/hooks/stop_learn_reflect.py:199-219 | a keyword flow's new indices are exactly the positives the ledger does not record for the session and flow, ascending |
| StopHook.FlowLabels | skills/learn/hooks/stop_learn_reflect.py:271-281 | flow 2's labels are non-empty when present |
| StopHook.Decide | skills/learn/hooks/stop_learn_reflect.py:199-309 | priority f1 > fv > f2: a flow captures only when every earlier one has nothing new; nothing is captured iff no flow has anything new |
| StopHook.Run | skills/learn/hooks/stop_learn_reflect.py:119-346 | nothing is written unless a flow captures, nor while the loop state's `active` is exactly `true`; every file only grows; at most one of the two documents changes |
| StopHook.Invoke | skills/learn/hooks/stop_learn_reflect.py:119-197 | the hook against the store: its outcome and the files it leaves are those of `Run`; the exit code is 0 |
| StopHook.Flows | skills/learn/hooks/stop_learn_reflect.py:199-232 | flow 1, and the later flows only when flow 1 found nothing new, give the outcome and files of the plan |
| StopHook.LaterFlows | skills/learn/hooks/stop_learn_reflect.py:234-267 | flow 1b, and flow 2 only when flow 1b found nothing new, give the outcome and files of the plan |
| StopHook.LastFlow | skills/learn/hooks/stop_learn_reflect.py:269-346 | flow 2, reached only when flows 1 and 1b found nothing new, gives the outcome and files of the plan |
| StopHook.KeywordFlow | skills/learn/hooks/stop_learn_reflect.py:199-232 | with new indices: the pending block with their context, then their marks; with none: no file changes |
| StopHook.LearningFlow | skills/learn/hooks/stop_learn_reflect.py:269-346 | with learnings: their indices marked, then the session block; with none: no file changes |
| StopHook.SeenOtherFlow | skills/learn/hooks/stop_learn_reflect.py:56-78 | marking one flow leaves what every other flow reads unchanged |
| StopHook.SeenOwnFlow | skills/learn/hooks/stop_learn_reflect.py:56-78 | marking a flow adds exactly the marked indices to what that flow reads |
| StopHook.NewForAfterOwnMark | skills/learn/hooks/stop_learn_reflect.py:218-232 | after a keyword flow marks its new indices it finds none on the same transcript |
| StopHook.AfterF1 | skills/learn/hooks/stop_learn_reflect.py:218-232 | a flow 1 capture clears flow 1 and leaves flows 1b and 2 as they were |
| StopHook.AfterFv | skills/learn/hooks/stop_learn_reflect.py:253-267 | a flow 1b capture clears flow 1b and leaves flows 1 and 2 as they were |
| StopHook.AfterF2 | skills/learn/hooks/stop_learn_reflect.py:283-312 | a flow 2 capture clears flow 2 and leaves flows 1 and 1b as they were |
| StopHook.LearningsAfterOwnMark | skills/learn/hooks/stop_learn_reflect.py:283-312 | after flow 2 marks its learnings, it finds none on the same transcript |
| StopHook.MarkedLearnings | skills/learn/hooks/stop_learn_reflect.py:283-312 | marking a superset of the learnings' indices leaves flow 2 nothing |
| StopHook.LedgerStep | skills/learn/hooks/stop_learn_reflect.py:218-312 | marking what a run decides to capture keeps the ledger newline-terminated and leaves one flow fewer with anything new, unless none had anything |
| StopHook.CarryStep | skills/learn/hooks/stop_learn_reflect.py:199-346 | a run on an unchanged transcript writes nothing when no flow has anything new, and otherwise leaves one flow fewer with something new |
| StopHook.Settled | skills/learn/hooks/stop_learn_reflect.py:199-309 | with no flow having anything new, a run changes no file |
| StopHook.ThreeCarries | skills/learn/hooks/stop_learn_reflect.py:199-346 | after three runs on the same rules and transcript, a fourth captures nothing |
| StopHook.FourthRunWritesNothing | skills/learn/hooks/stop_learn_reflect.py:119-346 | on an unchanged transcript and rules, a fourth consecutive run of the whole hook writes nothing |
| StopHook.LearningMarksAscend | skills/learn/hooks/stop_learn_reflect.py:312 | flow 2 marks its learning indices in ascending order, and none was seen before |
| MarkVoluntary.Run | skills/learn/hooks/mark_voluntary_seen.py:29-136 | the ledger only grows; it is unchanged without the rules source or a session, when the comment is absent or has no phrases, and when nothing new matches |
| MarkVoluntary.RunAppends | skills/learn/hooks/mark_voluntary_seen.py:130-136 | one run appends exactly one `session<TAB>fv<TAB>idx` line per newly marked index, in the order of those indices (ascending, by `NewMarksSpec`), and nothing else |
| MarkVoluntary.RunSeen | skills/learn/hooks/mark_voluntary_seen.py:116-136 | after a run, the `fv` seen set of the session is the old one plus exactly the newly marked indices; every other session and flow reads what it read before |
| MarkVoluntary.Invoke | skills/learn/hooks/mark_voluntary_seen.py:29-136 | the helper against the store changes only the ledger, to what `Run` gives; the exit code is 0 |
| MarkVoluntary.NewMarksSpec | skills/learn/hooks/mark_voluntary_seen.py:100-136 | the marked indices are exactly the unseen candidates containing a phrase case-insensitively, in ascending order |
| MarkVoluntary.TeammateNeverMarked | skills/learn/hooks/mark_voluntary_seen.py:108-109 | a message with the teammate marker is never marked, whatever phrase it holds |
| MarkVoluntary.ReadCommentOfFound | skills/learn/hooks/mark_voluntary_seen.py:44-47 | the helper's own comment search reads the same value as the stop hook's `read_comment`, with absent as blank |
| MarkVoluntary.NoEntriesOfBlank | skills/learn/hooks/mark_voluntary_seen.py:49-51 | a blank comment value gives no phrases |
| MarkVoluntary.AgreesWithStopHook | skills/learn/hooks/mark_voluntary_seen.py:100-111 | whenever there are phrases, the helper marks exactly what the stop hook's flow 1b would capture |
| MarkVoluntary.StopHookSkipsMarked | skills/learn/hooks/mark_voluntary_seen.py:131-136 | after the helper runs, the stop hook's flow 1b finds nothing new in the same transcript, and flows 1 and 2 find what they found before |
| MarkVoluntary.Idempotent | skills/learn/hooks/mark_voluntary_seen.py:131-136 | a second run with the same inputs leaves the ledger as the first left it |
| MarkVoluntary.BlankPhrasesDiverge | skills/learn/hooks/mark_voluntary_seen.py:49-53 | with a blank-only phrase list the helper marks nothing, while the stop hook's empty pattern captures every unseen candidate |
| LoopControl.Transition | skills/implement-loop/hooks/loop_controller.py:27-64 | no, unparseable or inactive state: exit 0, file untouched; a completing signal deletes the state first; then running out of iterations deletes it; exit 2 exactly on the continue path, which bumps `iteration` alone and prints the command |
| LoopControl.Controller.Step | skills/implement-loop/hooks/loop_controller.py:15-64 | the controller's state file, exit code and stdout after one run are those of `Transition` |
| LoopControl.EmptySignalIgnoresOutput | skills/implement-loop/hooks/loop_controller.py:50-52 | an empty completion signal never completes: the output makes no difference |
| LoopControl.Defaults | skills/implement-loop/hooks/loop_controller.py:41-44 | a record with only `active: true` runs as iteration 1 of 50 with the empty command |
| LoopControl.AbsentStaysAbsent | skills/implement-loop/hooks/loop_controller.py:27-29 | once the state is gone every run exits 0 and none recreates it |
| LoopControl.RunsOut | skills/implement-loop/hooks/loop_controller.py:55-61 | without the signal, an active state continues exactly `max(0, maxIterations - iteration)` times and is deleted on the next run |

## Left out

- Environment discovery: `git rev-parse`, `os.getcwd`, `CLAUDE_PLUGIN_ROOT`, the home directory, and the choice of the newest `*.jsonl` by modification time. The session, project root and rules text are inputs.
- The one-time symlink of the rules file (`skills/learn/hooks/stop_learn_reflect.py:145-154`): a filesystem side effect whose failures are swallowed.
- Consuming stdin in the stop hook, and the `mkdir` of the rules directory: no effect on the modelled files.
- JSON decoding is a parameter. Records that are not objects, and keys of unexpected JSON types, are not modelled. Examples: a non-object `message`, a non-string `text`, a non-string `completionSignal`. In the source such input raises, and the top-level handler exits 0 having written whatever was written before the error.
- The loop-state record is modelled by the keys the controller reads, with `None` for a missing key; a key holding JSON `null` is not distinguished from a missing one. The controller's rewrite of the record keeps the other keys, which the model does not carry.
- Top-level exception handling: both learning hooks and the controller are modelled as exiting with the codes of their normal paths. Failures of reads and writes part-way through (permissions, a full disk) are not modelled.
- Unicode: regex `\b`, `\s`, `str.strip` and `re.IGNORECASE` are modelled on ASCII. Python `int()` is modelled on an optional sign and ASCII digits, without underscores or non-ASCII digits.
- Universal newlines: line iteration splits on `\n` only. The ledger round-trip lemmas therefore require session ids without a carriage return (`Ledger.ValidSessionId`), which the source's reader would also end a line at.
- `datetime.now()`: the date is an input string.
- Concurrent runs racing on the ledger or the documents.
- Classifier.NoInsideWords: states the example sentence's result word by word, for the four words that hold "no"; the sentence as one text is not stated, because the other words and the separators hold no "no" and a proof over the whole literal is beyond what the verifier evaluates.
- Rules.ReadComment: modelled for comment names that do not begin with whitespace; all three names the hooks use meet this.
- The end-to-end tests' expectation of exit code 2 with a directive on stdout is not modelled; the code always exits 0.
