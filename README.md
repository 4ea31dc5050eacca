# challengeutils scoring core in Dafny

This project models the core of `challengeutils`, the tooling that runs
Synapse challenges. The parts modelled are:

- **The scoring harness** (`scoring_harness/challenge.py`). It validates the
  submissions of each evaluation queue, then scores them.
  - Each status is stored with VALIDATED / INVALID / SCORED and its
    annotations.
  - Participants or administrators are told the outcome through the
    `messages` script.
  - A run holds a lock. An error in the command is reported to the
    administrators, and the lock is released.
- **The runner** (`bin/runchallenge.py`). It checks the queue
  configuration, takes the lock and invokes each queue's validation or
  scoring callable with that queue's gold-standard path.
- **The annotation merge of `challengeutils.utils`.** Annotations are filed
  in typed lists (string / long / double), and each carries an `isPrivate`
  flag. A key that would change privacy is refused unless forced.
  `annotate_submission` drops `None` values and stores the merged status
  once.
- **The writeup archiver.** It copies a writeup into a new project named
  from the submission and the clock, and points the submission status at
  that project with an `archived` annotation. The pointer is reused unless
  `rearchive` is given.
- **The command-line helpers of `challengeutils/__main__.py`:**
  - the links printed after `createchallenge`;
  - the mail body of `sendemail`;
  - the privacy flag of `annotatesubmission`;
  - the paths written by `downloadsubmission --output`;
  - `perform_main`.

The Synapse service is the `Platform.Synapse` class. It holds:

- the submissions;
- the current status of each submission;
- the log of every `store`;
- the log of every call into the `messages` script;
- the projects created.

The harness lock is `Platform.ChallengeLock`. Python dicts are ordered
association lists (`Dicts`), so the iteration order and `d[k] = v`
behave as in Python. The user's validation and scoring functions are
parameters: each returns a value or raises an exception of a given class
with a message.

Files:

| file | contents |
|---|---|
| `wrappers.dfy` | `Option` and `Result` |
| `dicts.dfy` | ordered dicts |
| `seqs.dfy` | the image of a sequence; the length of the prefix before the first failure; prefix and concatenation facts |
| `text.dfy` | strip, join, decimal rendering, `\n` replacement and the matching split |
| `annotations.dfy` | typed annotation lists and the privacy merge |
| `platform.dfy` | the Synapse client state, the statuses restored from the store log, the lock, and calls into user code |
| `utils.dfy` | `update_single_submission_status` and `annotate_submission` |
| `config.dfy` | queue configuration, key check, id map |
| `harness.dfy` | `scoring_harness/challenge.py` |
| `runner.dfy` | `bin/runchallenge.py` |
| `writeup.dfy` | writeup archiving |
| `cli.dfy` | `challengeutils/__main__.py` |

## Model

| member | source | states |
|---|---|---|
| Harness.GetUserName | scoring_harness/challenge.py:28-45 | The stripped first and last names, joined by one space, whichever are given and non-empty; the user name when neither is. |
| Harness.InputOf | scoring_harness/challenge.py:86-90 | The validator receives the submission's own file path exactly when it has one, and otherwise the submission itself. |
| Harness.Judge | scoring_harness/challenge.py:85-101 | A submission is valid exactly when the validator returns True. The error is recorded exactly when it raises, with the class it raised. The message is the returned message or the exception text. |
| Harness.FailureReason | scoring_harness/challenge.py:105-108 | Empty for a valid submission. Otherwise the message cut to its first 1000 characters: a prefix of it, equal to it when short enough. |
| Harness.ValidatedStatusSpec | scoring_harness/challenge.py:103-113 | The validated status keeps its id. It is VALIDATED exactly when the validator returned True, INVALID otherwise. It stays well formed. Its only FAILURE_REASON annotation is the public failure reason. |
| Harness.ValidationConflict | scoring_harness/challenge.py:110-113 | Storing the public FAILURE_REASON fails exactly when the status already has a private FAILURE_REASON. |
| Harness.ValidationErrorMessage | scoring_harness/challenge.py:110-113 | A refused validation merge always raises the privacy error naming FAILURE_REASON alone. |
| Harness.ValidateSingleSubmission | scoring_harness/challenge.py:64-117 | Returns the verdict, or the merge error. Stores the validated status once unless `dry_run`, and sends nothing. |
| Harness.ValidationNotice | scoring_harness/challenge.py:169-199 | A pass goes to the submitter, enabled by `acknowledge_receipt`, with no message. A failure that raised AssertionError goes to the submitter; any other failure goes to the administrators as "Challenge Administrator". A failure carries the validation message and is enabled by `send_messages`. |
| Harness.ValidateAndNotify | scoring_harness/challenge.py:156-199 | For one bundle: either the merge error with nothing changed, or one status stored (none when dry run) and one notice sent. The current statuses are then the old ones with that status stored on top. |
| Harness.Validate | scoring_harness/challenge.py:120-199 | An unknown queue id gives the lookup error and changes nothing. Otherwise the bundles with the wanted status are validated in order, up to the first merge error. Exactly their statuses are stored and their notices sent, in order; the current statuses are the old ones with those stored on top. The error is the one that stopped the loop. |
| Harness.ValidateBundles | scoring_harness/challenge.py:155-199 | The loop over the bundles stops at the first merge error and returns it, and returns nothing when every bundle merges. The store log, the message log and the current statuses hold exactly the effects of the bundles before that point, in order. |
| Harness.Scoring | scoring_harness/challenge.py:221-245 | The scored status keeps the id, and its label is SCORED or INVALID. |
| Harness.ScoringSpec | scoring_harness/challenge.py:221-245 | SCORED exactly when the scorer returns and its private annotations merge. Then the status holds every score as a private annotation, plus the old annotations whose key was not scored. Otherwise the annotations are unchanged (INVALID). |
| Harness.ScoreEntries | scoring_harness/challenge.py:230-231 | The score dict filed as private annotations holds exactly its pairs, each marked private. |
| Harness.ScoreKeys | scoring_harness/challenge.py:230-233 | The keys the score annotations request are the keys of the score dict. |
| Harness.ScoreSingleSubmission | scoring_harness/challenge.py:203-249 | Returns the scored status and message. Stores the status once unless `dry_run`. |
| Harness.ScoringNotice | scoring_harness/challenge.py:298-323 | A SCORED status notifies the submitter by name. Any other status notifies the administrators as "Challenge Administrator,". Both carry the scoring message and `send_messages`. |
| Harness.ScoreAndNotify | scoring_harness/challenge.py:287-323 | For one bundle: one status stored (none when dry run) and one notice sent. The current statuses are the old ones with that status stored on top. |
| Harness.Score | scoring_harness/challenge.py:252-323 | An unknown queue id gives the lookup error and changes nothing. Otherwise every bundle with the wanted status is scored in order. All of their statuses are stored and their notices sent; the current statuses are the old ones with those stored on top. |
| Harness.ScoreBundles | scoring_harness/challenge.py:286-323 | The loop over the bundles scores every one: the store log, the message log and the current statuses hold one status and one message per bundle, in order. |
| Harness.ValidatedOnly | scoring_harness/challenge.py:156-199 | Validation only ever stores VALIDATED or INVALID and only sends validation notices. |
| Harness.QueueValidationError | scoring_harness/challenge.py:146-199 | Validating one queue raises the lookup error for an unknown queue, the merge error of the first failing bundle, or nothing when every bundle merges. Any error is the lookup error or the FAILURE_REASON flip. |
| Harness.ScoredOnly | scoring_harness/challenge.py:287-323 | Scoring only ever stores SCORED or INVALID and only sends scoring notices. |
| Harness.ValidateQueue | scoring_harness/challenge.py:120-127 | Validating a queue with the default RECEIVED filter raises what `QueueValidationError` gives for the state it starts from. It appends only validation labels and notices, and stores nothing in a dry run. |
| Harness.ScoreQueue | scoring_harness/challenge.py:252-259 | Scoring a queue with the default VALIDATED filter fails exactly when the queue lookup fails. It appends only scoring labels and notices, and stores nothing in a dry run. |
| Harness.CommandValidate | scoring_harness/challenge.py:330-347 | With `--evaluation` naming no configured queue: the KeyError and nothing changed. A configured one raises what validating it raises. Over all queues it ends quietly only if every queue resolves; otherwise it raises the lookup error or the FAILURE_REASON flip. Only validation effects; no queues means no effect. |
| Harness.CommandScore | scoring_harness/challenge.py:350-366 | With `--evaluation`, the call that omits `challenge_synid` fails before any scoring. The error is the missing-argument error if the queue is configured, the KeyError if not. Over all queues it raises exactly when some queue does not resolve, and then the lookup error. Only scoring effects. |
| Harness.RunCommand | scoring_harness/challenge.py:433-434 | The chosen sub-command runs, and its error is that command's error as stated for the two commands above. |
| Harness.RunLocked | scoring_harness/challenge.py:433-448 | Under the lock the command runs with the effects stated for it, and its error is the command's error. An error is sent once, last, to the administrators when there are any. The lock is released exactly once. |
| Harness.HarnessMain | scoring_harness/challenge.py:373-448 | Error cases: an unreadable challenge gives ValueError; an incomplete queue gives KeyError; a held lock gives 75. Each of these leaves the client and the lock untouched. Otherwise the command runs and the lock is released exactly once. The caught error is the command's error, and it is sent once, as an error notification, to the administrators (the owner by default) when there are any. |
| Platform.BundlesOf | scoring_harness/challenge.py:154-155 | The bundles are exactly the submissions of the queue whose current status carries the wanted label, each with that status: none is missed and none is added. |
| Platform.BundlesOfAppend | scoring_harness/challenge.py:154-155 | Bundles keep the service's order: the bundles of a concatenation are the bundles of each part, in turn. |
| Platform.ResolveEvaluation | scoring_harness/challenge.py:148-149 | An evaluation object is used as is. An id is looked up, and fails exactly when the service does not know it. |
| Platform.Synapse.Store | scoring_harness/challenge.py:115-116 | `store` makes the status current and appends it to the store log. Nothing else changes. |
| Platform.Restore | scoring_harness/challenge.py:115-116 | After a series of `store` calls, a submission no stored status names keeps its old status, no submission is lost, and each status stays under its own id. |
| Platform.RestoreAppend | scoring_harness/challenge.py:115-116 | Storing one series and then another is the same as storing the two in turn. |
| Platform.Synapse.StoredSince | scoring_harness/challenge.py:115-116 | The current statuses are those of any earlier moment, with every status stored since then applied in order. |
| Config.BuildQueueMaps | bin/runchallenge.py:81-89 | The configuration fails with the KeyError message exactly when some queue lacks one of the four keys. Otherwise it maps every queue id to its queue. |
| Config.QueueMapsKeys | bin/runchallenge.py:83-89 | The keys of the queue map are exactly the configured ids. |
| Config.QueueMapsLast | bin/runchallenge.py:83-89 | When an id is configured twice, the later queue replaces the earlier one. |
| Platform.Callable.Call | bin/runchallenge.py:44-45 | Calling user code records the argument and returns what the call raises. |
| Runner.InvokeEach | bin/runchallenge.py:41-45 | The queues are invoked in order up to and including the first that raises. That exception is returned. |
| Runner.CommandValidate | bin/runchallenge.py:39-45 | Each queue's validation callable is invoked with the queue id and its gold-standard path, stopping at the first exception. |
| Runner.CommandScore | bin/runchallenge.py:48-54 | Each queue's scoring callable is invoked with the queue id and its gold-standard path, stopping at the first exception. |
| Runner.EachQueueOnce | bin/runchallenge.py:39-54 | A full run makes one invocation per configured queue, with that queue's own callable and gold-standard path, and no queue twice. |
| Runner.RunnerMain | bin/runchallenge.py:57-116 | The administrators default to the owner. Error cases: an incomplete queue escapes as a KeyError before the lock; a held lock returns 75. Each of these leaves the lock and the callables untouched. A full run returns 0 with the lock released once. An exception escapes with the lock still held. |
| Utils.UpdateSingleSubmissionStatus | tests/test_utils.py:58-117 | The merge applied to a status keeps its id and label, and fails exactly when the annotation merge fails. |
| Utils.DropNoneMembers | tests/test_utils.py:183-204 | The values passed on are exactly the pairs whose value is not None. |
| Utils.AnnotateSubmission | tests/test_utils.py:183-204 | Reads the status once, merges the non-None values with the given flags, and stores the result once. A refused flip or an unknown submission stores nothing. |
| Utils.AnnotatedEntries | tests/test_utils.py:183-204 | After annotating, the status holds each non-None value with privacy `not to_public`, plus every old entry whose key was given no value. |
| Annotations.ToStatusMembers | tests/test_utils.py:62-63 | Filing a dict by type gives exactly its pairs, flagged with the requested privacy. |
| Annotations.SwitchAnnotationPermission | tests/test_utils.py:18-55 | Refused, naming the clashing keys, exactly when some added key has the other privacy and the call is not forced. When forced, those keys are dropped from the other side. |
| Annotations.ConflictIff | tests/test_utils.py:18-31 | A merge fails exactly when it is not forced and some requested key is annotated with the other privacy. |
| Annotations.UpdateMembership | tests/test_utils.py:58-117 | A successful merge holds every requested entry with its requested privacy, plus every existing entry whose key was not requested; nothing else. |
| Annotations.UpdateWellFormed | tests/test_utils.py:58-117 | A successful merge keeps entries in the list of their type and every key on one entry. |
| Annotations.RoundTrip | tests/test_utils.py:62-63 | Reading annotations of one privacy into a dict and filing it again gives them back. |
| Annotations.UpdateSamePrivacy | tests/test_utils.py:58-102 | With no privacy change possible, the merge is `dict.update` followed by filing by type. |
| Annotations.UpdateAppendsNewKey | tests/test_utils.py:58-72 | A new private key is appended to the list of its type, and nothing else changes. |
| Annotations.SwitchRefusesFlip | tests/test_utils.py:18-31 | `{'test': 2, 'test2': 2}` against `{'test': 1}` is refused with the message naming `test`. |
| Annotations.SwitchForcedDropsFlipped | tests/test_utils.py:34-43 | The same call, forced, leaves `{}`. |
| Annotations.SwitchWithoutOverlap | tests/test_utils.py:46-55 | Without overlap the existing dict is returned unchanged. |
| Annotations.UpdateChangesType | tests/test_utils.py:75-88 | A long value replaces a string annotation of the same key. |
| Annotations.UpdateInStatusForm | tests/test_utils.py:91-102 | Annotations already in status form replace the existing one of the same key. |
| Annotations.UpdateToPublic | tests/test_utils.py:105-117 | With `to_public=True` a dict is filed as public annotations. |
| Writeup.ArchiveNameFields | tests/test_writeupattacher.py:25-41 | The archive name is "Archived", the entity name, the time in milliseconds, the submission id and the entity id, joined by spaces. |
| Writeup.ArchiveNameAtTen | tests/test_writeupattacher.py:27-28 | At time 10 the name carries `10000`. |
| Writeup.CreateArchiveWriteup | tests/test_writeupattacher.py:25-41 | Creates exactly one project with that name, copied from the submission's entity. |
| Writeup.ArchivedPointer | tests/test_writeupattacher.py:43-67 | The `archived` annotation, absent exactly when no entry has that key. |
| Writeup.FindSubmission | tests/test_writeupattacher.py:51-62 | The submission with the id, absent exactly when none has it. |
| Writeup.PointAtReadsBack | tests/test_writeupattacher.py:70-94 | Writing the pointer keeps the status well formed, and the pointer reads back the project id. |
| Writeup.ArchiveWriteup | tests/test_writeupattacher.py:43-124 | An existing pointer is returned without copying or storing, unless `rearchive`. Otherwise a new project is made and its id stored as the pointer and returned. An unknown submission or status fails with nothing changed. |
| Writeup.ArchiveCall | tests/test_writeupattacher.py:43-124 | One call adds at most one project. A success without a new project returns the pointer the status held. A success with one returns its id. A changed status is the submission's, pointed at that project. |
| Writeup.ArchiveStep | tests/test_writeupattacher.py:127-182 | One bundle's call keeps the loop's progress: projects only added, one at most; each value listed so far is its bundle's old pointer or a project of this run. |
| Writeup.ArchiveTwice | tests/test_writeupattacher.py:43-67 | Archiving twice without `rearchive` returns the same id, and creates at most one project. |
| Writeup.ArchiveWriteups | tests/test_writeupattacher.py:127-182 | One result per bundle with the wanted status (VALIDATED by default), and the old projects stay a prefix even on failure. Each result is its bundle's old `archived` pointer or the id of a project created in this run, and at most one project is made per bundle. With `rearchive` every result is the id of a new project, in order. |
| Cli.ComponentUrls | challengeutils/__main__.py:52-62 | The links are those of the visited components. `name` holds the challenge name, and no other key is touched by it. |
| Cli.Urls | challengeutils/__main__.py:56-61 | Only components whose name ends in `projectid` or `teamid` get a link. |
| Cli.UrlsLookup | challengeutils/__main__.py:56-61 | A project id links to `https://www.synapse.org/#!Synapse:<id>`, a team id to `https://www.synapse.org/#!Team:<id>`; other components have none. |
| Cli.SendEmail | challengeutils/__main__.py:221-228 | The body is the message's pieces between escaped newlines joined by `<br>`, as Python's `replace` is. No escaped newline is left, and a message without one is sent unchanged, to the given users with the given subject. |
| Text.SplitEscaped | challengeutils/__main__.py:225 | `split` on the escaped newline gives at least one piece, and the first piece is a prefix of the message. |
| Text.SplitJoin | challengeutils/__main__.py:225 | Joining the pieces with the escaped newline gives the message back. |
| Text.SplitPiecesClean | challengeutils/__main__.py:225 | No piece holds an escaped newline. |
| Text.ReplaceJoin | challengeutils/__main__.py:225 | The rewrite is the pieces joined by `<br>`: `s.replace(old, new)` is `new.join(s.split(old))`. |
| Cli.BindAnnotateFlags | challengeutils/__main__.py:209-214 | Binding keywords to `annotate_submission_with_json` raises exactly when one is not `to_public` or `force`, naming the first such keyword. Otherwise each flag has the value passed for it, or its default. |
| Cli.KeywordMismatch | challengeutils/__main__.py:209-214 | The keywords as written raise for `is_private`. With `to_public` the flags bind as given. |
| Cli.CallAnnotateWithJson | challengeutils/__main__.py:210-218 | A keyword the callee does not declare raises before anything is stored. Otherwise the merge runs with the bound flags and stores once. |
| Cli.AnnotateSubmissionWithJsonAsWritten | challengeutils/__main__.py:202-218 | As written, every call raises the TypeError for `is_private`, and nothing is stored. |
| Cli.AnnotateSubmissionWithJson | challengeutils/__main__.py:202-218 | As intended: `is_private` is the negation of `--to_public`, and the merge receives `to_public` as given. It stores the merged status once, or fails on an unknown submission or a refused flip with nothing stored. |
| Cli.DownloadedFile | challengeutils/__main__.py:186-199 | The JSON always names `submission-<id>`. A rename to that path happens exactly when a file was downloaded. |
| Cli.DownloadedFileInjective | challengeutils/__main__.py:189-194 | Different submissions never share an output path. |
| Cli.PerformMain | challengeutils/__main__.py:560-565 | Without a sub-command nothing is called and nothing raised. With one, its function is called exactly once with the arguments, and what it raises propagates unchanged. |

## Left out

- Sources outside this model:
  - `challengeutils/utils.py` and `challengeutils/writeup_attacher.py` are not part of this model.
  - `update_single_submission_status`, `_switch_annotation_permission`, `annotate_submission` and `archive_writeup(s)` are reconstructed from tests/test_utils.py and tests/test_writeupattacher.py. The cases those tests fix for the merge and for one `archive_writeup` call are proved as lemmas. The `archive_writeups` tests mock `archive_writeup` to return a fixed id, and the model does not reproduce that mock.
- `annotate_submission_with_json` is not part of this model.
  - Reading the JSON file is left out.
  - Its keywords `to_public` and `force` are those tests/test_utils.py:207-222 pass to it.
  - Their defaults are parameters, because its signature is not available.
  - `with_retry` is left out; it does not retry a TypeError.
- Annotations:
  - Boolean and date values are left out.
  - An absent annotation list is treated as the empty list.
  - `strip` treats only ASCII whitespace as space.
- Login and credentials are left out: `synapseclient` login, `importlib` loading of the configuration, `argparse`, logging, `with_retry` and the printing of the links.
  - The configuration arrives as a list of queue entries, each key present or absent.
  - The challenge entity is a map from id to name.
  - Whether the lock is free is a parameter.
  - The lock's maximum age is not modelled.
- The check at challenge.py:414-421 that each character of `--evaluation` is a queue id is left out. It iterates the characters of a string, which in practice rejects every multi-character id.
- `syn.getSubmission` refetching a bundle's submission is the identity. `getUserProfile` is total.
- The messages are the recorded call only (kind, recipients, greeting, queue, submission, message, send and dry-run flags). The `messages` script itself, the submission name and `challenge_synid` are not recorded.
- Harness.ValidateAndNotify: the relative order of a store and a message across the two logs is not recorded. Each log is in order.
- The in-place aliasing in tests/test_utils.py:58-72, where the test mutates the status it passed in, is not modelled. Statuses are values.
- The clock of `_create_archive_writeup` is a whole number of seconds. Fractional seconds are left out.
- `downloadsubmission` without `--output` only logs the download, and is left out.
- The archived pointer is the first annotation with key `archived`.
- Submission and status lookups in `archive_writeup` fail with fixed messages.
- Writeup.ArchiveWriteups: no handler around a failing archive is shown, so a failure ends the run and is returned. That each result is an old pointer or a new project's id is stated only for statuses whose annotations are well formed (each key once), as the service returns them.
- Harness.CommandValidate: over all queues it states the labels and notice kinds it adds, not every status, because each queue is proved separately by `Harness.Validate`. Its error over all queues is stated by kind, not by the queue that raised it.
- Harness.CommandScore: over all queues it states the labels and notice kinds it adds, not every status, because each queue is proved separately by `Harness.Score`.
- Harness.HarnessMain: the command's effects are stated through the labels and notice kinds it may add. Its caught error is stated exactly as the command's error is.
- Harness.ValidateQueue: states its error, and of its effects only the labels and kinds; the exact effects are those of `Harness.Validate`.
- Harness.ScoreQueue: states its error, and of its effects only the labels and kinds; the exact effects are those of `Harness.Score`.
- Runner: only the administrators and the command of the runner's arguments are used.
  - The other flags are parsed but not read by `main`.
  - The mutually exclusive `--validate` / `--score` group is the `RunnerCommand` datatype.
  - The runner's callables are user code, recorded as invocations with the exception they raise.
- `send_notifications` is passed to `score` but never read there, so it is not modelled.
- Where the design description and the code differ, the model follows the code:
  - A validator that returns `(False, message)` without raising has no exception. Its failure notice goes to the administrators, not to the submitter.
  - The single-queue branch of `command_score` calls `score` without `challenge_synid`, so it raises a missing-argument TypeError before scoring anything.
  - A privacy conflict on FAILURE_REASON raises outside the per-submission handler of `validate`, and it ends the loop over the queue. The score merge sits inside the handler of `score_single_submission`, so a conflict there gives INVALID.

## Findings

| source | as written | input that shows it | evidently intended | confidence | as-written member | corrected member |
|---|---|---|---|---|---|---|
| challengeutils/__main__.py:209-214 | `command_annotate_submission_with_json` passes `is_private=` to `utils.annotate_submission_with_json`, whose flag is named `to_public` (tests/test_utils.py:215-218) | any `annotatesubmission` call, e.g. submission 12345 with annotations.json | pass `to_public=args.to_public`, as the comment at lines 208-209 describes | not executed; the callee's signature is inferred from its test, because `challengeutils/utils.py` is not part of this model | Cli.AnnotateSubmissionWithJsonAsWritten | Cli.AnnotateSubmissionWithJson |
