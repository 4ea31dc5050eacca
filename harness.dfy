/**
 * The scoring harness (`scoring_harness/challenge.py`): run the
 * participant-facing validation and scoring functions of each evaluation
 * queue over its submissions, record the outcome on each submission status
 * and tell the submitter or the challenge administrators.
 *
 * The user functions come from the challenge's configuration script and are
 * modelled as given functions that either return a value and a message or
 * raise an exception of some kind with a message.
 */
module Harness {
  import opened Wrappers
  import opened Dicts
  import opened Annotations
  import opened Platform
  import opened Utils
  import opened Seqs
  import opened Config
  import Text

  // ---------------------------------------------------------------------
  // get_user_name

  /** A profile field that is present and not empty. */
  predicate Given(name: Option<string>) {
    name.Some? && name.value != ""
  }

  /** The names collected for a greeting: first, then last, each stripped. */
  function NamesOf(p: Profile): seq<string> {
    (if Given(p.firstName) then [Text.Strip(p.firstName.value)] else [])
    + (if Given(p.lastName) then [Text.Strip(p.lastName.value)] else [])
  }

  /**
   * `get_user_name(profile)`: the stripped first and last names joined by
   * one space, leaving out absent or empty ones, or the user name when both
   * are left out.
   */
  function GetUserName(p: Profile): (r: string)
    ensures Given(p.firstName) && Given(p.lastName)
            ==> r == Text.Strip(p.firstName.value) + " " + Text.Strip(p.lastName.value)
    ensures Given(p.firstName) && !Given(p.lastName) ==> r == Text.Strip(p.firstName.value)
    ensures !Given(p.firstName) && Given(p.lastName) ==> r == Text.Strip(p.lastName.value)
    ensures !Given(p.firstName) && !Given(p.lastName) ==> r == p.userName
  {
    var names := NamesOf(p);
    assert |names| == 2 ==> names[1..] == [names[1]] && Text.Join(names, " ") == names[0] + " " + names[1];
    Text.Join(if names == [] then [p.userName] else names, " ")
  }

  // ---------------------------------------------------------------------
  // User functions and their outcomes

  datatype ExceptionKind = AssertionKind | OtherKind

  /** What a user function did: returned a value and a message, or raised. */
  datatype Outcome<T> = Returned(value: T, msg: string) | Raised(kind: ExceptionKind, msg: string)

  /** What a validation function is given: the file of a file submission, or the submission itself. */
  datatype SubmissionInput = FileInput(path: string) | SubmissionObject(submission: Submission)

  function InputOf(s: Submission): (i: SubmissionInput)
    ensures i.FileInput? <==> s.filePath.Some?
    ensures i.FileInput? ==> i.path == s.filePath.value
    ensures i.SubmissionObject? ==> i.submission == s
  {
    if s.filePath.None? then SubmissionObject(s) else FileInput(s.filePath.value)
  }

  /** `validation_func(submission_input, goldstandard_path)`. */
  type Validator = (SubmissionInput, string) -> Outcome<bool>

  /** `scoring_func(filePath, goldstandard_path)`: a score dict and a message. */
  type Scorer = (Option<string>, string) -> Outcome<AnnotationDict>

  /** One queue of the configuration, with all four keys present. */
  type QueueConfig = Queue<Validator, Scorer>

  /** A submission as listed with its status. */
  type Bundle = (Submission, SubmissionStatus)

  // ---------------------------------------------------------------------
  // validate_single_submission

  /** `is_valid`, `validation_error` and `validation_message`. */
  datatype Verdict = Verdict(isValid: bool, error: Option<ExceptionKind>, message: string)

  /**
   * The verdict on a validator's outcome: valid exactly when it returned
   * true; an exception is recorded with its kind and its text.
   */
  function Judge(o: Outcome<bool>): (v: Verdict)
    ensures v.isValid <==> o.Returned? && o.value
    ensures v.error.Some? <==> o.Raised?
    ensures o.Raised? ==> v.error == Some(o.kind)
    ensures v.message == o.msg
  {
    match o
    case Returned(valid, msg) => Verdict(valid, None, msg)
    case Raised(kind, msg) => Verdict(false, Some(kind), msg)
  }

  const FailureReasonKey := "FAILURE_REASON"
  const MaxFailureReason := 1000

  /** The FAILURE_REASON text: empty when valid, else the message cut to 1000 characters. */
  function FailureReason(v: Verdict): (r: string)
    ensures |r| <= MaxFailureReason
    ensures v.isValid ==> r == ""
    ensures !v.isValid ==> |r| <= |v.message| && r == v.message[..|r|]
    ensures !v.isValid && |v.message| <= MaxFailureReason ==> r == v.message
    ensures !v.isValid && |v.message| > MaxFailureReason ==> |r| == MaxFailureReason
  {
    if v.isValid then "" else Text.Prefix(v.message, MaxFailureReason)
  }

  /** The FAILURE_REASON annotation, filed as a public string annotation. */
  function FailureReasonAnnotation(v: Verdict): Addition {
    InStatusForm(ToStatusAnnotations([(FailureReasonKey, Str(FailureReason(v)))], false))
  }

  function LabelOf(v: Verdict): Label {
    if v.isValid then Validated else Invalid
  }

  /** The status after validation, or the ValueError of the annotation merge. */
  function ValidatedStatus(status: SubmissionStatus, v: Verdict): Result<SubmissionStatus, string> {
    UpdateSingleSubmissionStatus(status.(status := LabelOf(v)), FailureReasonAnnotation(v), false, false)
  }

  /** Validating one bundle: the verdict and the new status, or the exception that escapes. */
  function Validation(q: QueueConfig, b: Bundle): Result<(Verdict, SubmissionStatus), string> {
    var v := Judge(q.validationFunc(InputOf(b.0), q.goldstandardPath));
    match ValidatedStatus(b.1, v)
    case Success(s) => Success((v, s))
    case Failure(e) => Failure(e)
  }

  /**
   * The validated status carries VALIDATED exactly when the validator
   * returned true, keeps the submission id, and holds FAILURE_REASON as
   * its only public-or-private entry under that key.
   */
  lemma ValidatedStatusSpec(status: SubmissionStatus, o: Outcome<bool>)
    requires WellFormed(status.annotations)
    requires ValidatedStatus(status, Judge(o)).Success?
    ensures var s := ValidatedStatus(status, Judge(o)).value;
      && s.id == status.id
      && (s.status == Validated <==> o.Returned? && o.value)
      && (s.status == Validated || s.status == Invalid)
      && WellFormed(s.annotations)
      && Entry(FailureReasonKey, Str(FailureReason(Judge(o))), false) in s.annotations.All()
      && (forall e :: e in s.annotations.All() && e.key == FailureReasonKey
                      ==> e == Entry(FailureReasonKey, Str(FailureReason(Judge(o))), false))
  {
    var v := Judge(o);
    var add := FailureReasonAnnotation(v);
    var fr := Entry(FailureReasonKey, Str(FailureReason(v)), false);
    var a := ToStatusAnnotations([(FailureReasonKey, Str(FailureReason(v)))], false);
    FileSingle(FailureReasonKey, Str(FailureReason(v)), false);
    assert AdditionWellFormed(add);
    UpdateWellFormed(status.annotations, add, false, false);
    UpdateMembership(status.annotations, add, false, false, fr);
  }

  /**
   * The merge of FAILURE_REASON is refused exactly when the status already
   * has a private FAILURE_REASON annotation.
   */
  lemma ValidationConflict(status: SubmissionStatus, v: Verdict)
    requires WellFormed(status.annotations)
    ensures ValidatedStatus(status, v).Failure?
        <==> exists e :: e in status.annotations.All() && e.key == FailureReasonKey && e.isPrivate
  {
    var add := FailureReasonAnnotation(v);
    var fr := Entry(FailureReasonKey, Str(FailureReason(v)), false);
    FileSingle(FailureReasonKey, Str(FailureReason(v)), false);
    ConflictIff(status.annotations, add, false, false);
    if exists e :: e in status.annotations.All() && e.key == FailureReasonKey && e.isPrivate {
      var e :| e in status.annotations.All() && e.key == FailureReasonKey && e.isPrivate;
      assert fr in Requested(add, false);
    }
  }

  /** The ValueError of a refused FAILURE_REASON merge: it names that key alone. */
  const FailureReasonConflict := AclMessage([FailureReasonKey])

  /** Validation can fail only on FAILURE_REASON, so its error always names that key. */
  lemma ValidationErrorMessage(status: SubmissionStatus, v: Verdict)
    requires ValidatedStatus(status, v).Failure?
    ensures ValidatedStatus(status, v).error == FailureReasonConflict
  {
    var pair := (FailureReasonKey, Str(FailureReason(v)));
    var a := ToStatusAnnotations([pair], false);
    FileSingle(pair.0, pair.1, false);
    CollectSingle(a, Entry(pair.0, pair.1, false));
    var priv := Collect(status.annotations, true);
    assert Clashes([pair], priv) == [FailureReasonKey] by {
      assert [pair][1..] == [];
    }
    assert Text.Join([FailureReasonKey], ", ") == FailureReasonKey;
  }

  /**
   * `validate_single_submission`: run the validator, set the label, merge
   * FAILURE_REASON and, unless `dry_run`, store the status once.
   */
  method ValidateSingleSubmission(syn: Synapse, q: QueueConfig, b: Bundle, dryRun: bool)
    returns (r: Result<Verdict, string>)
    requires syn.Valid()
    modifies syn
    ensures syn.Valid()
    ensures r.Success? <==> Validation(q, b).Success?
    ensures r.Success? ==> r.value == Validation(q, b).value.0
    ensures r.Failure? ==> r.error == Validation(q, b).error
    ensures syn.stored == old(syn.stored) + (if r.Success? && !dryRun then [Validation(q, b).value.1] else [])
    ensures syn.statuses == if r.Success? && !dryRun
                            then old(syn.statuses)[b.1.id := Validation(q, b).value.1]
                            else old(syn.statuses)
    ensures syn.notices == old(syn.notices) && syn.projects == old(syn.projects)
    ensures syn.submissions == old(syn.submissions)
  {
    var v := Judge(q.validationFunc(InputOf(b.0), q.goldstandardPath));
    var status := ValidatedStatus(b.1, v);
    if status.Failure? {
      return Failure(status.error);
    }
    if !dryRun {
      syn.Store(status.value);
    }
    r := Success(v);
  }

  // ---------------------------------------------------------------------
  // Notification routing

  const Administrator := "Challenge Administrator"
  /** The greeting of a scoring error, trailing comma included. */
  const AdministratorComma := "Challenge Administrator,"

  /** The flags and names a run of the harness passes to the `messages` script. */
  datatype RunOptions = RunOptions(
    admins: seq<string>, sendMessages: bool, acknowledgeReceipt: bool, dryRun: bool,
    profiles: string -> Profile)

  /**
   * The message after validating a submission: a pass and a failure by
   * AssertionError go to the submitter, by name; any other failure goes to
   * the administrators.
   */
  function ValidationNotice(sub: Submission, v: Verdict, queueName: string, opts: RunOptions): (n: Notice)
    ensures n.kind == ValidationPassed <==> v.isValid
    ensures n.kind == ValidationPassed || n.kind == ValidationFailed
    ensures v.isValid || v.error == Some(AssertionKind)
            ==> n.userIds == [sub.userId] && n.username == GetUserName(opts.profiles(sub.userId))
    ensures !v.isValid && v.error != Some(AssertionKind) ==> n.userIds == opts.admins && n.username == Administrator
    ensures n.submissionId == sub.id && n.queueName == queueName && n.dryRun == opts.dryRun
    ensures n.enabled == if v.isValid then opts.acknowledgeReceipt else opts.sendMessages
    ensures n.message == if v.isValid then "" else v.message
  {
    var name := GetUserName(opts.profiles(sub.userId));
    if v.isValid then
      Notice(ValidationPassed, [sub.userId], name, queueName, sub.id, "", opts.acknowledgeReceipt, opts.dryRun)
    else if v.error == Some(AssertionKind) then
      Notice(ValidationFailed, [sub.userId], name, queueName, sub.id, v.message, opts.sendMessages, opts.dryRun)
    else
      Notice(ValidationFailed, opts.admins, Administrator, queueName, sub.id, v.message, opts.sendMessages, opts.dryRun)
  }

  // ---------------------------------------------------------------------
  // validate

  function Validates(q: QueueConfig): Bundle -> bool {
    b => Validation(q, b).Success?
  }

  function ValidationErrors(q: QueueConfig): Bundle -> string {
    b => if Validation(q, b).Failure? then Validation(q, b).error else ""
  }

  function ValidatedRecords(q: QueueConfig): Bundle -> SubmissionStatus {
    b => ValidatedRecord(q, b)
  }

  function ValidatedNotices(q: QueueConfig, queueName: string, opts: RunOptions): Bundle -> Notice {
    b => ValidatedNotice(q, queueName, opts, b)
  }

  function ScoredRecords(q: QueueConfig): Bundle -> SubmissionStatus {
    b => Scoring(q, b).0
  }

  function ScoredNotices(q: QueueConfig, queueName: string, opts: RunOptions): Bundle -> Notice {
    b => ScoredNotice(q, queueName, opts, b)
  }

  /** The status stored for a bundle that validated. */
  function ValidatedRecord(q: QueueConfig, b: Bundle): SubmissionStatus {
    match Validation(q, b)
    case Success(p) => p.1
    case Failure(_) => b.1
  }

  /** The message sent for a bundle that validated. */
  function ValidatedNotice(q: QueueConfig, queueName: string, opts: RunOptions, b: Bundle): Notice {
    match Validation(q, b)
    case Success(p) => ValidationNotice(b.0, p.0, queueName, opts)
    case Failure(_) => ValidationNotice(b.0, Verdict(true, None, ""), queueName, opts)
  }

  /** One turn of the loop of `validate`: validate a bundle, then send its message. */
  method ValidateAndNotify(syn: Synapse, q: QueueConfig, b: Bundle, queueName: string, opts: RunOptions)
    returns (err: Option<string>)
    requires syn.Valid()
    modifies syn
    ensures syn.Valid()
    ensures err.None? <==> Validates(q)(b)
    ensures err.Some? ==> err.value == ValidationErrors(q)(b)
                          && syn.stored == old(syn.stored) && syn.notices == old(syn.notices)
                          && syn.statuses == old(syn.statuses)
    ensures err.None? ==> syn.stored == old(syn.stored) + (if opts.dryRun then [] else [ValidatedRecords(q)(b)])
                          && syn.notices == old(syn.notices) + [ValidatedNotices(q, queueName, opts)(b)]
                          && syn.statuses
                             == Restore(old(syn.statuses), if opts.dryRun then [] else [ValidatedRecords(q)(b)])
    ensures syn.projects == old(syn.projects) && syn.submissions == old(syn.submissions)
  {
    var res := ValidateSingleSubmission(syn, q, b, opts.dryRun);
    if res.Failure? {
      return Some(res.error);
    }
    syn.Send(ValidationNotice(b.0, res.value, queueName, opts));
    syn.StoredSince(old(syn.stored), old(syn.statuses), if opts.dryRun then [] else [ValidatedRecords(q)(b)]);
    err := None;
  }

  /**
   * `validate(syn, queue, admins, challenge, status, ...)`: validate every
   * bundle of the queue carrying `wanted`, in order, storing each status
   * (unless `dry_run`) before sending its message. An exception escaping
   * the merge ends the run.
   */
  method Validate(syn: Synapse, q: QueueConfig, wanted: Label, opts: RunOptions)
    returns (err: Option<string>)
    requires syn.Valid()
    modifies syn
    ensures syn.Valid()
    ensures ResolveEvaluation(syn.evaluations, q.id).Failure? ==>
              err == Some(EvaluationNotFound) && syn.stored == old(syn.stored)
              && syn.notices == old(syn.notices) && syn.statuses == old(syn.statuses)
    ensures ResolveEvaluation(syn.evaluations, q.id).Success? ==>
              var e := ResolveEvaluation(syn.evaluations, q.id).value;
              var bs := old(syn.Bundles(e.id, wanted));
              var n := TakeWhileCount(Validates(q), bs);
              && (err.None? <==> n == |bs|)
              && (err.Some? ==> n < |bs| && err.value == ValidationErrors(q)(bs[n]))
              && syn.stored == old(syn.stored)
                   + (if opts.dryRun then [] else Map(ValidatedRecords(q), bs[..n]))
              && syn.notices == old(syn.notices) + Map(ValidatedNotices(q, e.name, opts), bs[..n])
              && syn.statuses
                 == Restore(old(syn.statuses), if opts.dryRun then [] else Map(ValidatedRecords(q), bs[..n]))
    ensures syn.projects == old(syn.projects) && syn.submissions == old(syn.submissions)
  {
    var resolved := ResolveEvaluation(syn.evaluations, q.id);
    if resolved.Failure? {
      return Some(resolved.error);
    }
    var e := resolved.value;
    var bs := syn.Bundles(e.id, wanted);
    err := ValidateBundles(syn, q, bs, e.name, opts);
  }

  /** The loop of `validate` over the bundles `bs` of queue `queueName`. */
  method ValidateBundles(syn: Synapse, q: QueueConfig, bs: seq<Bundle>, queueName: string, opts: RunOptions)
    returns (err: Option<string>)
    requires syn.Valid()
    modifies syn
    ensures syn.Valid()
    ensures var n := TakeWhileCount(Validates(q), bs);
      && (err.None? <==> n == |bs|)
      && (err.Some? ==> n < |bs| && err.value == ValidationErrors(q)(bs[n]))
      && syn.stored == old(syn.stored) + (if opts.dryRun then [] else Map(ValidatedRecords(q), bs[..n]))
      && syn.notices == old(syn.notices) + Map(ValidatedNotices(q, queueName, opts), bs[..n])
      && syn.statuses == Restore(old(syn.statuses), if opts.dryRun then [] else Map(ValidatedRecords(q), bs[..n]))
    ensures syn.projects == old(syn.projects) && syn.submissions == old(syn.submissions)
  {
    ghost var stored0, notices0 := syn.stored, syn.notices;
    ghost var n := TakeWhileCount(Validates(q), bs);
    var i := 0;
    while i < |bs|
      invariant i <= |bs| && syn.Valid()
      invariant ValidatedPrefix(syn, q, bs, i, queueName, opts, stored0, notices0)
      invariant syn.projects == old(syn.projects) && syn.submissions == old(syn.submissions)
    {
      var failed := ValidateStep(syn, q, bs, i, queueName, opts, stored0, notices0);
      if failed.Some? {
        assert bs[..i] == bs[..n];
        syn.StoredSince(stored0, old(syn.statuses), if opts.dryRun then [] else Map(ValidatedRecords(q), bs[..n]));
        return failed;
      }
      i := i + 1;
    }
    assert bs[..i] == bs[..n];
    syn.StoredSince(stored0, old(syn.statuses), if opts.dryRun then [] else Map(ValidatedRecords(q), bs[..n]));
    err := None;
  }

  /**
   * The logs after the loop of `validate` has handled `bs[..i]`, all of
   * which passed the merge: their statuses and notices follow the logs'
   * starting contents.
   */
  ghost predicate ValidatedPrefix(syn: Synapse, q: QueueConfig, bs: seq<Bundle>, i: nat, queueName: string,
                                  opts: RunOptions, stored0: seq<SubmissionStatus>, notices0: seq<Notice>)
    reads syn
    requires i <= |bs|
  {
    && i <= TakeWhileCount(Validates(q), bs)
    && syn.stored == stored0 + (if opts.dryRun then [] else Map(ValidatedRecords(q), bs[..i]))
    && syn.notices == notices0 + Map(ValidatedNotices(q, queueName, opts), bs[..i])
  }

  /** One turn of the loop of `validate`: the bundle `bs[i]` either extends both logs or stops the loop. */
  method ValidateStep(syn: Synapse, q: QueueConfig, bs: seq<Bundle>, i: nat, queueName: string, opts: RunOptions,
                      ghost stored0: seq<SubmissionStatus>, ghost notices0: seq<Notice>)
    returns (failed: Option<string>)
    requires syn.Valid() && i < |bs|
    requires ValidatedPrefix(syn, q, bs, i, queueName, opts, stored0, notices0)
    modifies syn
    ensures syn.Valid()
    ensures syn.projects == old(syn.projects) && syn.submissions == old(syn.submissions)
    ensures failed.Some? ==> TakeWhileCount(Validates(q), bs) == i && failed.value == ValidationErrors(q)(bs[i])
                             && syn.stored == old(syn.stored) && syn.notices == old(syn.notices)
    ensures failed.None? ==> ValidatedPrefix(syn, q, bs, i + 1, queueName, opts, stored0, notices0)
  {
    failed := ValidateAndNotify(syn, q, bs[i], queueName, opts);
    if failed.Some? {
      TakeWhileStop(Validates(q), bs, i);
      return;
    }
    TakeWhileStep(Validates(q), bs, i);
    if !opts.dryRun {
      MapExtend(ValidatedRecords(q), bs, i, stored0);
    }
    MapExtend(ValidatedNotices(q, queueName, opts), bs, i, notices0);
  }

  // ---------------------------------------------------------------------
  // score_single_submission

  /**
   * The status and message after scoring: the label starts at INVALID and
   * becomes SCORED, with the score merged as private annotations, only when
   * the scorer returns and the merge succeeds. Otherwise the annotations are
   * untouched and the message is the exception's text.
   */
  function Scoring(q: QueueConfig, b: Bundle): (r: (SubmissionStatus, string))
    ensures r.0.id == b.1.id
    ensures r.0.status == Scored || r.0.status == Invalid
  {
    var invalid := b.1.(status := Invalid);
    match q.scoringFunc(b.0.filePath, q.goldstandardPath)
    case Raised(_, msg) => (invalid, msg)
    case Returned(score, msg) =>
      match UpdateSingleSubmissionStatus(invalid, InStatusForm(ToStatusAnnotations(score, true)), false, false)
      case Success(s) => (s.(status := Scored), msg)
      case Failure(e) => (invalid, e)
  }

  /**
   * A submission is SCORED exactly when the scorer returned and its score
   * could be merged; then every score pair is a private annotation and every
   * other annotation whose key the score does not use is kept. Otherwise
   * the annotations are unchanged.
   */
  lemma ScoringSpec(q: QueueConfig, b: Bundle, e: Entry)
    requires WellFormed(b.1.annotations)
    requires var o := q.scoringFunc(b.0.filePath, q.goldstandardPath); o.Returned? ==> DistinctKeys(o.value)
    ensures var o := q.scoringFunc(b.0.filePath, q.goldstandardPath);
      && (Scoring(q, b).0.status == Scored
          <==> o.Returned? && UpdateAnnotations(b.1.annotations, InStatusForm(ToStatusAnnotations(o.value, true)),
                                                false, false).Success?)
      && (Scoring(q, b).0.status == Scored ==>
            (e in Scoring(q, b).0.annotations.All()
             <==> (e.isPrivate && (e.key, e.value) in o.value)
                  || (e in b.1.annotations.All() && e.key !in Keys(o.value))))
      && (Scoring(q, b).0.status != Scored ==> Scoring(q, b).0.annotations == b.1.annotations)
  {
    var o := q.scoringFunc(b.0.filePath, q.goldstandardPath);
    if o.Returned? {
      var a := ToStatusAnnotations(o.value, true);
      var add := InStatusForm(a);
      ScoreEntries(o.value, e);
      ScoreKeys(o.value, e.key);
      if UpdateAnnotations(b.1.annotations, add, false, false).Success? {
        UpdateMembership(b.1.annotations, add, false, false, e);
      }
    }
  }

  /** A score dict filed as private annotations has unique keys and holds exactly its pairs. */
  lemma ScoreEntries(score: AnnotationDict, e: Entry)
    requires DistinctKeys(score)
    ensures AdditionWellFormed(InStatusForm(ToStatusAnnotations(score, true)))
    ensures e in ToStatusAnnotations(score, true).All() <==> e.isPrivate && (e.key, e.value) in score
  {
    ToStatusMembers(score, true, e);
    DistinctConsistent(score);
    var s := ToStatusAnnotations(score, true).All();
    forall x, y | x in s && y in s && x.key == y.key ensures x == y {
      ToStatusMembers(score, true, x);
      ToStatusMembers(score, true, y);
    }
  }

  /** The keys a score requests are the keys of the score dict. */
  lemma ScoreKeys(score: AnnotationDict, k: string)
    requires DistinctKeys(score)
    ensures k in RequestedKeys(InStatusForm(ToStatusAnnotations(score, true)), false) <==> k in Keys(score)
  {
    KeysMembers(score, k);
    if k in Keys(score) {
      var v :| (k, v) in score;
      ScoreEntries(score, Entry(k, v, true));
    }
    if k in RequestedKeys(InStatusForm(ToStatusAnnotations(score, true)), false) {
      var e :| e in ToStatusAnnotations(score, true).All() && e.key == k;
      ScoreEntries(score, e);
    }
  }

  /** `score_single_submission`: score, then store the status unless `dry_run`. */
  method ScoreSingleSubmission(syn: Synapse, q: QueueConfig, b: Bundle, dryRun: bool)
    returns (status: SubmissionStatus, message: string)
    requires syn.Valid()
    modifies syn
    ensures syn.Valid()
    ensures (status, message) == Scoring(q, b)
    ensures syn.stored == old(syn.stored) + (if dryRun then [] else [status])
    ensures syn.statuses == if dryRun then old(syn.statuses) else old(syn.statuses)[status.id := status]
    ensures syn.notices == old(syn.notices) && syn.projects == old(syn.projects)
    ensures syn.submissions == old(syn.submissions)
  {
    status, message := Scoring(q, b).0, Scoring(q, b).1;
    if !dryRun {
      syn.Store(status);
    }
  }

  /**
   * The message after scoring: a SCORED submission's message goes to the
   * submitter, anything else to the administrators.
   */
  function ScoringNotice(sub: Submission, status: SubmissionStatus, message: string, queueName: string,
                         opts: RunOptions): (n: Notice)
    ensures n.kind == ScoringSucceeded <==> status.status == Scored
    ensures n.kind == ScoringSucceeded || n.kind == ScoringError
    ensures status.status == Scored ==> n.userIds == [sub.userId] && n.username == GetUserName(opts.profiles(sub.userId))
    ensures status.status != Scored ==> n.userIds == opts.admins && n.username == AdministratorComma
    ensures n.message == message && n.submissionId == sub.id && n.enabled == opts.sendMessages
  {
    if status.status == Scored then
      Notice(ScoringSucceeded, [sub.userId], GetUserName(opts.profiles(sub.userId)), queueName, sub.id, message,
             opts.sendMessages, opts.dryRun)
    else
      Notice(ScoringError, opts.admins, AdministratorComma, queueName, sub.id, message, opts.sendMessages, opts.dryRun)
  }

  /** The message sent for a scored bundle. */
  function ScoredNotice(q: QueueConfig, queueName: string, opts: RunOptions, b: Bundle): Notice {
    ScoringNotice(b.0, Scoring(q, b).0, Scoring(q, b).1, queueName, opts)
  }

  /** One turn of the loop of `score`: score a bundle, then send its message. */
  method ScoreAndNotify(syn: Synapse, q: QueueConfig, b: Bundle, queueName: string, opts: RunOptions)
    requires syn.Valid()
    modifies syn
    ensures syn.Valid()
    ensures syn.stored == old(syn.stored) + (if opts.dryRun then [] else [ScoredRecords(q)(b)])
    ensures syn.notices == old(syn.notices) + [ScoredNotices(q, queueName, opts)(b)]
    ensures syn.statuses == Restore(old(syn.statuses), if opts.dryRun then [] else [ScoredRecords(q)(b)])
    ensures syn.projects == old(syn.projects) && syn.submissions == old(syn.submissions)
  {
    var status, message := ScoreSingleSubmission(syn, q, b, opts.dryRun);
    syn.Send(ScoringNotice(b.0, status, message, queueName, opts));
    syn.StoredSince(old(syn.stored), old(syn.statuses), if opts.dryRun then [] else [ScoredRecords(q)(b)]);
  }

  /**
   * `score(syn, queue, admins, challenge, status, ...)`: score every bundle
   * of the queue carrying `wanted`, in order; scoring catches every
   * exception of the scorer, so each bundle gets a status and a message.
   */
  method Score(syn: Synapse, q: QueueConfig, wanted: Label, opts: RunOptions)
    returns (err: Option<string>)
    requires syn.Valid()
    modifies syn
    ensures syn.Valid()
    ensures ResolveEvaluation(syn.evaluations, q.id).Failure? ==>
              err == Some(EvaluationNotFound) && syn.stored == old(syn.stored)
              && syn.notices == old(syn.notices) && syn.statuses == old(syn.statuses)
    ensures ResolveEvaluation(syn.evaluations, q.id).Success? ==>
              var e := ResolveEvaluation(syn.evaluations, q.id).value;
              var bs := old(syn.Bundles(e.id, wanted));
              && err.None?
              && syn.stored == old(syn.stored) + (if opts.dryRun then [] else Map(ScoredRecords(q), bs))
              && syn.notices == old(syn.notices) + Map(ScoredNotices(q, e.name, opts), bs)
              && syn.statuses == Restore(old(syn.statuses), if opts.dryRun then [] else Map(ScoredRecords(q), bs))
    ensures syn.projects == old(syn.projects) && syn.submissions == old(syn.submissions)
  {
    var resolved := ResolveEvaluation(syn.evaluations, q.id);
    if resolved.Failure? {
      return Some(resolved.error);
    }
    var e := resolved.value;
    var bs := syn.Bundles(e.id, wanted);
    ScoreBundles(syn, q, bs, e.name, opts);
    err := None;
  }

  /** The loop of `score` over the bundles `bs` of queue `queueName`. */
  method ScoreBundles(syn: Synapse, q: QueueConfig, bs: seq<Bundle>, queueName: string, opts: RunOptions)
    requires syn.Valid()
    modifies syn
    ensures syn.Valid()
    ensures syn.stored == old(syn.stored) + (if opts.dryRun then [] else Map(ScoredRecords(q), bs))
    ensures syn.notices == old(syn.notices) + Map(ScoredNotices(q, queueName, opts), bs)
    ensures syn.statuses == Restore(old(syn.statuses), if opts.dryRun then [] else Map(ScoredRecords(q), bs))
    ensures syn.projects == old(syn.projects) && syn.submissions == old(syn.submissions)
  {
    ghost var stored0, notices0 := syn.stored, syn.notices;
    var i := 0;
    while i < |bs|
      invariant i <= |bs|
      invariant syn.Valid()
      invariant syn.stored == stored0 + (if opts.dryRun then [] else Map(ScoredRecords(q), bs[..i]))
      invariant syn.notices == notices0 + Map(ScoredNotices(q, queueName, opts), bs[..i])
      invariant syn.projects == old(syn.projects) && syn.submissions == old(syn.submissions)
    {
      ScoreAndNotify(syn, q, bs[i], queueName, opts);
      if !opts.dryRun {
        MapExtend(ScoredRecords(q), bs, i, stored0);
      }
      MapExtend(ScoredNotices(q, queueName, opts), bs, i, notices0);
      i := i + 1;
    }
    assert bs[..|bs|] == bs;
    syn.StoredSince(stored0, old(syn.statuses), if opts.dryRun then [] else Map(ScoredRecords(q), bs));
  }

  // ---------------------------------------------------------------------
  // What a command may add to the service's logs

  /** `after` is `before` followed by statuses whose labels are all in `labels`. */
  ghost predicate StoredWith(before: seq<SubmissionStatus>, after: seq<SubmissionStatus>, labels: set<Label>) {
    |before| <= |after| && after[..|before|] == before
    && forall k :: |before| <= k < |after| ==> after[k].status in labels
  }

  /** `after` is `before` followed by messages whose kinds are all in `kinds`. */
  ghost predicate SentWith(before: seq<Notice>, after: seq<Notice>, kinds: set<NoticeKind>) {
    |before| <= |after| && after[..|before|] == before
    && forall k :: |before| <= k < |after| ==> after[k].kind in kinds
  }

  lemma StoredWithTrans(a: seq<SubmissionStatus>, b: seq<SubmissionStatus>, c: seq<SubmissionStatus>,
                        labels: set<Label>)
    requires StoredWith(a, b, labels) && StoredWith(b, c, labels)
    ensures StoredWith(a, c, labels)
  {
    assert c[..|b|][..|a|] == c[..|a|];
  }

  lemma SentWithTrans(a: seq<Notice>, b: seq<Notice>, c: seq<Notice>, kinds: set<NoticeKind>)
    requires SentWith(a, b, kinds) && SentWith(b, c, kinds)
    ensures SentWith(a, c, kinds)
  {
    assert c[..|b|][..|a|] == c[..|a|];
  }

  lemma StoredWithAppend(a: seq<SubmissionStatus>, added: seq<SubmissionStatus>, labels: set<Label>)
    requires forall k :: 0 <= k < |added| ==> added[k].status in labels
    ensures StoredWith(a, a + added, labels)
  {
    assert (a + added)[..|a|] == a;
  }

  lemma SentWithAppend(a: seq<Notice>, added: seq<Notice>, kinds: set<NoticeKind>)
    requires forall k :: 0 <= k < |added| ==> added[k].kind in kinds
    ensures SentWith(a, a + added, kinds)
  {
    assert (a + added)[..|a|] == a;
  }

  const ValidationLabels: set<Label> := {Validated, Invalid}
  const ValidationKinds: set<NoticeKind> := {ValidationPassed, ValidationFailed}
  const ScoringLabels: set<Label> := {Scored, Invalid}
  const ScoringKinds: set<NoticeKind> := {ScoringSucceeded, ScoringError}

  /**
   * Validating a queue stores only VALIDATED or INVALID statuses and sends
   * only validation messages: the run stops before the first bundle whose
   * merge raises, and every bundle before it validated.
   */
  lemma {:induction false} ValidatedOnly(q: QueueConfig, bs: seq<Bundle>, queueName: string, opts: RunOptions)
    ensures var n := TakeWhileCount(Validates(q), bs);
      && (forall k :: 0 <= k < n ==> Map(ValidatedRecords(q), bs[..n])[k].status in ValidationLabels)
      && (forall k :: 0 <= k < n ==> Map(ValidatedNotices(q, queueName, opts), bs[..n])[k].kind in ValidationKinds)
  {
    var n := TakeWhileCount(Validates(q), bs);
    TakeWhileCountSpec(Validates(q), bs);
    forall k | 0 <= k < n
      ensures Map(ValidatedRecords(q), bs[..n])[k].status in ValidationLabels
      ensures Map(ValidatedNotices(q, queueName, opts), bs[..n])[k].kind in ValidationKinds
    {
      MapAt(ValidatedRecords(q), bs[..n], k);
      MapAt(ValidatedNotices(q, queueName, opts), bs[..n], k);
      ValidatedBundle(q, bs[k], queueName, opts);
    }
  }

  /** A bundle whose merge succeeds is stored as VALIDATED or INVALID and answered with a validation message. */
  lemma ValidatedBundle(q: QueueConfig, b: Bundle, queueName: string, opts: RunOptions)
    requires Validates(q)(b)
    ensures ValidatedRecords(q)(b).status in ValidationLabels
    ensures ValidatedNotices(q, queueName, opts)(b).kind in ValidationKinds
  {
    var v := Judge(q.validationFunc(InputOf(b.0), q.goldstandardPath));
    assert ValidatedStatus(b.1, v).Success?;
  }

  /** Scoring a queue stores only SCORED or INVALID statuses and sends only scoring messages. */
  lemma {:induction false} ScoredOnly(q: QueueConfig, bs: seq<Bundle>, queueName: string, opts: RunOptions)
    ensures forall k :: 0 <= k < |bs| ==> Map(ScoredRecords(q), bs)[k].status in ScoringLabels
    ensures forall k :: 0 <= k < |bs| ==> Map(ScoredNotices(q, queueName, opts), bs)[k].kind in ScoringKinds
  {
    forall k | 0 <= k < |bs|
      ensures Map(ScoredRecords(q), bs)[k].status in ScoringLabels
      ensures Map(ScoredNotices(q, queueName, opts), bs)[k].kind in ScoringKinds
    {
      MapAt(ScoredRecords(q), bs, k);
      MapAt(ScoredNotices(q, queueName, opts), bs, k);
    }
  }

  /**
   * What `validate` on one queue raises, given the service's submissions
   * and statuses when it starts: the unknown queue, or the merge error of
   * the first bundle that fails, which is always the FAILURE_REASON flip.
   */
  function QueueValidationError(q: QueueConfig, evaluations: map<string, Evaluation>, subs: seq<Submission>,
                                statuses: map<string, SubmissionStatus>): (r: Option<string>)
    ensures ResolveEvaluation(evaluations, q.id).Failure? ==> r == Some(EvaluationNotFound)
    ensures r.Some? ==> r.value == EvaluationNotFound || r.value == FailureReasonConflict
  {
    match ResolveEvaluation(evaluations, q.id)
    case Failure(e) => Some(e)
    case Success(ev) =>
      var bs := BundlesOf(subs, statuses, ev.id, Received);
      var n := TakeWhileCount(Validates(q), bs);
      if n == |bs| then None
      else
        TakeWhileCountSpec(Validates(q), bs);
        ValidationErrorMessage(bs[n].1, Judge(q.validationFunc(InputOf(bs[n].0), q.goldstandardPath)));
        Some(ValidationErrors(q)(bs[n]))
  }

  /**
   * `validate` on one queue, seen from the commands: whatever it stores is
   * VALIDATED or INVALID, whatever it sends is a validation message, and
   * under `dry_run` it stores nothing.
   */
  method ValidateQueue(syn: Synapse, q: QueueConfig, opts: RunOptions) returns (err: Option<string>)
    requires syn.Valid()
    modifies syn
    ensures syn.Valid()
    ensures err == QueueValidationError(q, syn.evaluations, old(syn.submissions), old(syn.statuses))
    ensures StoredWith(old(syn.stored), syn.stored, ValidationLabels)
    ensures SentWith(old(syn.notices), syn.notices, ValidationKinds)
    ensures opts.dryRun ==> syn.stored == old(syn.stored)
    ensures syn.projects == old(syn.projects) && syn.submissions == old(syn.submissions)
  {
    var resolved := ResolveEvaluation(syn.evaluations, q.id);
    ghost var stored0, notices0 := syn.stored, syn.notices;
    ghost var bs := if resolved.Success? then syn.Bundles(resolved.value.id, Received) else [];
    err := Validate(syn, q, Received, opts);
    if resolved.Success? {
      var n := TakeWhileCount(Validates(q), bs);
      ValidatedOnly(q, bs, resolved.value.name, opts);
      if !opts.dryRun {
        StoredWithAppend(stored0, Map(ValidatedRecords(q), bs[..n]), ValidationLabels);
      } else {
        StoredWithAppend(stored0, [], ValidationLabels);
        assert stored0 + [] == stored0;
      }
      SentWithAppend(notices0, Map(ValidatedNotices(q, resolved.value.name, opts), bs[..n]), ValidationKinds);
    } else {
      StoredWithAppend(stored0, [], ValidationLabels);
      SentWithAppend(notices0, [], ValidationKinds);
      assert stored0 + [] == stored0 && notices0 + [] == notices0;
    }
  }

  /**
   * `score` on one queue, seen from the commands: whatever it stores is
   * SCORED or INVALID, whatever it sends is a scoring message, and under
   * `dry_run` it stores nothing.
   */
  method ScoreQueue(syn: Synapse, q: QueueConfig, opts: RunOptions) returns (err: Option<string>)
    requires syn.Valid()
    modifies syn
    ensures syn.Valid()
    ensures err.Some? <==> ResolveEvaluation(syn.evaluations, q.id).Failure?
    ensures err.Some? ==> err.value == EvaluationNotFound
    ensures StoredWith(old(syn.stored), syn.stored, ScoringLabels)
    ensures SentWith(old(syn.notices), syn.notices, ScoringKinds)
    ensures opts.dryRun ==> syn.stored == old(syn.stored)
    ensures syn.projects == old(syn.projects) && syn.submissions == old(syn.submissions)
  {
    var resolved := ResolveEvaluation(syn.evaluations, q.id);
    ghost var stored0, notices0 := syn.stored, syn.notices;
    ghost var bs := if resolved.Success? then syn.Bundles(resolved.value.id, Validated) else [];
    err := Score(syn, q, Validated, opts);
    if resolved.Success? {
      ScoredOnly(q, bs, resolved.value.name, opts);
      if !opts.dryRun {
        StoredWithAppend(stored0, Map(ScoredRecords(q), bs), ScoringLabels);
      } else {
        StoredWithAppend(stored0, [], ScoringLabels);
        assert stored0 + [] == stored0;
      }
      SentWithAppend(notices0, Map(ScoredNotices(q, resolved.value.name, opts), bs), ScoringKinds);
    } else {
      StoredWithAppend(stored0, [], ScoringLabels);
      SentWithAppend(notices0, [], ScoringKinds);
      assert stored0 + [] == stored0 && notices0 + [] == notices0;
    }
  }

  // ---------------------------------------------------------------------
  // command_validate, command_score

  /** The text of the KeyError `evaluation_queue_maps[evaluation]` raises: the key's repr. */
  function MissingQueue(evaluation: string): string {
    "'" + evaluation + "'"
  }

  /** The TypeError of the single-queue call of `score`, which leaves out `challenge_synid`. */
  const ScoreArgumentMissing := "score() missing 1 required positional argument: 'challenge_synid'"

  /**
   * What a command raises, given the service's state when it starts. A
   * named queue that is not configured raises the KeyError; the named
   * queue of `score` raises the missing-argument error; the named queue of
   * `validate` raises what validating it raises. Over all queues the run
   * ends quietly only if every queue resolves, `score` raises only for an
   * unknown queue, and `validate` also for the FAILURE_REASON flip.
   */
  ghost predicate CommandOutcome(c: Command, maps: Dict<EvaluationRef, QueueConfig>, evaluation: Option<string>,
                                 evaluations: map<string, Evaluation>, subs: seq<Submission>,
                                 statuses: map<string, SubmissionStatus>, err: Option<string>)
  {
    match evaluation
    case Some(name) =>
      if EvaluationId(name) !in Keys(maps) then err == Some(MissingQueue(name))
      else if c == ScoreCommand then err == Some(ScoreArgumentMissing)
      else err == QueueValidationError(Get(maps, EvaluationId(name)).value, evaluations, subs, statuses)
    case None =>
      && (maps == [] ==> err.None?)
      && (err.None? ==> forall k :: 0 <= k < |maps| ==> ResolveEvaluation(evaluations, maps[k].1.id).Success?)
      && (c == ScoreCommand && (forall k :: 0 <= k < |maps| ==> ResolveEvaluation(evaluations, maps[k].1.id).Success?)
          ==> err.None?)
      && (err.None? || err == Some(EvaluationNotFound)
          || (c == ValidateCommand && err == Some(FailureReasonConflict)))
  }

  /**
   * `command_validate`: validate every configured queue in the map's order,
   * or only `evaluation`. An exception ends the command.
   */
  method CommandValidate(syn: Synapse, maps: Dict<EvaluationRef, QueueConfig>, evaluation: Option<string>,
                         opts: RunOptions) returns (err: Option<string>)
    requires syn.Valid()
    modifies syn
    ensures syn.Valid()
    ensures evaluation.Some? && EvaluationId(evaluation.value) !in Keys(maps) ==>
              err == Some(MissingQueue(evaluation.value)) && syn.stored == old(syn.stored)
              && syn.notices == old(syn.notices) && syn.statuses == old(syn.statuses)
    ensures evaluation.None? && maps == [] ==>
              err.None? && syn.stored == old(syn.stored) && syn.notices == old(syn.notices)
    ensures CommandOutcome(ValidateCommand, maps, evaluation, syn.evaluations, old(syn.submissions),
                           old(syn.statuses), err)
    ensures StoredWith(old(syn.stored), syn.stored, ValidationLabels)
    ensures SentWith(old(syn.notices), syn.notices, ValidationKinds)
    ensures opts.dryRun ==> syn.stored == old(syn.stored)
    ensures syn.projects == old(syn.projects) && syn.submissions == old(syn.submissions)
  {
    if evaluation.Some? {
      var q := Get(maps, EvaluationId(evaluation.value));
      if q.None? {
        assert syn.stored[..|syn.stored|] == syn.stored && syn.notices[..|syn.notices|] == syn.notices;
        return Some(MissingQueue(evaluation.value));
      }
      err := ValidateQueue(syn, q.value, opts);
      return;
    }
    ghost var stored0, notices0 := syn.stored, syn.notices;
    assert stored0[..|stored0|] == stored0 && notices0[..|notices0|] == notices0;
    var i := 0;
    while i < |maps|
      invariant i <= |maps|
      invariant syn.Valid()
      invariant StoredWith(stored0, syn.stored, ValidationLabels)
      invariant SentWith(notices0, syn.notices, ValidationKinds)
      invariant forall k :: 0 <= k < i ==> ResolveEvaluation(syn.evaluations, maps[k].1.id).Success?
      invariant opts.dryRun ==> syn.stored == stored0
      invariant i == 0 ==> syn.stored == stored0 && syn.notices == notices0
      invariant syn.projects == old(syn.projects) && syn.submissions == old(syn.submissions)
    {
      ghost var stored1, notices1 := syn.stored, syn.notices;
      err := ValidateQueue(syn, maps[i].1, opts);
      StoredWithTrans(stored0, stored1, syn.stored, ValidationLabels);
      SentWithTrans(notices0, notices1, syn.notices, ValidationKinds);
      if err.Some? {
        return;
      }
      i := i + 1;
    }
    err := None;
  }

  /**
   * `command_score`: score every configured queue in the map's order. The
   * single-queue call leaves out the challenge id, so once the queue is
   * found it raises a TypeError before scoring anything.
   */
  method CommandScore(syn: Synapse, maps: Dict<EvaluationRef, QueueConfig>, evaluation: Option<string>,
                      opts: RunOptions) returns (err: Option<string>)
    requires syn.Valid()
    modifies syn
    ensures syn.Valid()
    ensures evaluation.Some? ==>
              err == Some(if EvaluationId(evaluation.value) in Keys(maps) then ScoreArgumentMissing
                          else MissingQueue(evaluation.value))
              && syn.stored == old(syn.stored) && syn.notices == old(syn.notices)
              && syn.statuses == old(syn.statuses)
    ensures evaluation.None? ==> err.None? || err == Some(EvaluationNotFound)
    ensures evaluation.None? && maps == [] ==>
              err.None? && syn.stored == old(syn.stored) && syn.notices == old(syn.notices)
    ensures CommandOutcome(ScoreCommand, maps, evaluation, syn.evaluations, old(syn.submissions),
                           old(syn.statuses), err)
    ensures StoredWith(old(syn.stored), syn.stored, ScoringLabels)
    ensures SentWith(old(syn.notices), syn.notices, ScoringKinds)
    ensures opts.dryRun ==> syn.stored == old(syn.stored)
    ensures syn.projects == old(syn.projects) && syn.submissions == old(syn.submissions)
  {
    ghost var stored0, notices0 := syn.stored, syn.notices;
    assert stored0[..|stored0|] == stored0 && notices0[..|notices0|] == notices0;
    if evaluation.Some? {
      var q := Get(maps, EvaluationId(evaluation.value));
      if q.None? {
        return Some(MissingQueue(evaluation.value));
      }
      return Some(ScoreArgumentMissing);
    }
    var i := 0;
    while i < |maps|
      invariant i <= |maps|
      invariant syn.Valid()
      invariant StoredWith(stored0, syn.stored, ScoringLabels)
      invariant SentWith(notices0, syn.notices, ScoringKinds)
      invariant forall k :: 0 <= k < i ==> ResolveEvaluation(syn.evaluations, maps[k].1.id).Success?
      invariant opts.dryRun ==> syn.stored == stored0
      invariant i == 0 ==> syn.stored == stored0 && syn.notices == notices0
      invariant syn.projects == old(syn.projects) && syn.submissions == old(syn.submissions)
    {
      ghost var stored1, notices1 := syn.stored, syn.notices;
      err := ScoreQueue(syn, maps[i].1, opts);
      StoredWithTrans(stored0, stored1, syn.stored, ScoringLabels);
      SentWithTrans(notices0, notices1, syn.notices, ScoringKinds);
      if err.Some? {
        return;
      }
      i := i + 1;
    }
    err := None;
  }

  // ---------------------------------------------------------------------
  // main

  datatype Command = ValidateCommand | ScoreCommand

  /** The parsed command line of the harness, without the login and configuration paths. */
  datatype HarnessArgs = HarnessArgs(
    challengeSynId: string, evaluation: Option<string>, adminUserIds: Option<seq<string>>,
    notifications: bool, sendMessages: bool, acknowledgeReceipt: bool, dryRun: bool, command: Command)

  datatype MainError = ValueError | KeyError

  /** How `main` ends: it returns (having logged a caught error or not), returns an exit code, or raises. */
  datatype Exit = Completed(logged: Option<string>) | Exited(code: int) | Threw(error: MainError, message: string)

  const ChallengeNotFound := "Must provide correct Synapse id of challenge site or "
                             + "have permissions to access challenge the site"

  /** The exit code for a lock held by another run: a temporary failure. */
  const LockedExitCode := 75

  /** The message `error_notification` is asked to send about a caught exception. */
  function ErrorNotice(admins: seq<string>, challengeName: string, message: string, args: HarnessArgs): Notice {
    Notice(ErrorNotification, admins, "", challengeName, "", message, args.notifications, args.dryRun)
  }

  function CommandLabels(c: Command): set<Label> {
    if c == ValidateCommand then ValidationLabels else ScoringLabels
  }

  function CommandKinds(c: Command): set<NoticeKind> {
    if c == ValidateCommand then ValidationKinds else ScoringKinds
  }

  /** The sub-command chosen by `args`, run on the configured queues. */
  method RunCommand(syn: Synapse, maps: Dict<EvaluationRef, QueueConfig>, args: HarnessArgs, opts: RunOptions)
    returns (err: Option<string>)
    requires syn.Valid()
    modifies syn
    ensures syn.Valid()
    ensures CommandOutcome(args.command, maps, args.evaluation, syn.evaluations, old(syn.submissions),
                           old(syn.statuses), err)
    ensures StoredWith(old(syn.stored), syn.stored, CommandLabels(args.command))
    ensures SentWith(old(syn.notices), syn.notices, CommandKinds(args.command))
    ensures opts.dryRun ==> syn.stored == old(syn.stored)
    ensures syn.projects == old(syn.projects) && syn.submissions == old(syn.submissions)
  {
    if args.command == ValidateCommand {
      err := CommandValidate(syn, maps, args.evaluation, opts);
    } else {
      err := CommandScore(syn, maps, args.evaluation, opts);
    }
  }

  /**
   * `main`'s `try` under the lock: the command runs, an exception it
   * raises is sent to the administrators as an error notification when
   * there are any, and the `finally` releases the lock.
   */
  method RunLocked(syn: Synapse, lock: ChallengeLock, maps: Dict<EvaluationRef, QueueConfig>, args: HarnessArgs,
                   opts: RunOptions, challengeName: string) returns (err: Option<string>)
    requires syn.Valid()
    modifies syn, lock
    ensures syn.Valid()
    ensures !lock.held && lock.releases == old(lock.releases) + 1
    ensures CommandOutcome(args.command, maps, args.evaluation, syn.evaluations, old(syn.submissions),
                           old(syn.statuses), err)
    ensures StoredWith(old(syn.stored), syn.stored, CommandLabels(args.command))
    ensures opts.dryRun ==> syn.stored == old(syn.stored)
    ensures err.None? || opts.admins == [] ==> SentWith(old(syn.notices), syn.notices, CommandKinds(args.command))
    ensures err.Some? && opts.admins != [] ==>
              |old(syn.notices)| < |syn.notices|
              && SentWith(old(syn.notices), syn.notices[..|syn.notices| - 1], CommandKinds(args.command))
              && syn.notices[|syn.notices| - 1] == ErrorNotice(opts.admins, challengeName, err.value, args)
    ensures syn.projects == old(syn.projects) && syn.submissions == old(syn.submissions)
  {
    lock.Acquire();
    err := RunCommand(syn, maps, args, opts);
    ghost var notices1 := syn.notices;
    if err.Some? && opts.admins != [] {
      syn.Send(ErrorNotice(opts.admins, challengeName, err.value, args));
      assert syn.notices[..|syn.notices| - 1] == notices1;
    }
    lock.Release();
  }

  /**
   * `main(args)` after login and after the configuration module is loaded:
   * `entityNames` stands for the entities `syn.get` can read, `config` for
   * `EVALUATION_QUEUES_CONFIG` and `lockFree` for whether
   * `acquire_lock_or_fail` succeeds. Once acquired, the lock is released
   * however the command ends; a caught exception is reported to the
   * administrators when there are any.
   */
  method HarnessMain(syn: Synapse, lock: ChallengeLock, args: HarnessArgs, entityNames: map<string, string>,
              config: seq<QueueEntry<Validator, Scorer>>, lockFree: bool) returns (exit: Exit)
    requires syn.Valid()
    modifies syn, lock
    ensures syn.Valid()
    ensures args.challengeSynId !in entityNames ==>
              exit == Threw(ValueError, ChallengeNotFound) && unchanged(syn) && unchanged(lock)
    ensures args.challengeSynId in entityNames && QueueMaps(config).Failure? ==>
              exit == Threw(KeyError, MissingKeys) && unchanged(syn) && unchanged(lock)
    ensures args.challengeSynId in entityNames && QueueMaps(config).Success? && !lockFree ==>
              exit == Exited(LockedExitCode) && unchanged(syn) && unchanged(lock)
    ensures args.challengeSynId in entityNames && QueueMaps(config).Success? && lockFree ==>
              var admins := Admins(args.adminUserIds, syn.ownerId);
              && exit.Completed?
              && CommandOutcome(args.command, QueueMaps(config).value, args.evaluation, syn.evaluations,
                                old(syn.submissions), old(syn.statuses), exit.logged)
              && !lock.held && lock.releases == old(lock.releases) + 1
              && StoredWith(old(syn.stored), syn.stored, CommandLabels(args.command))
              && (args.dryRun ==> syn.stored == old(syn.stored))
              && (exit.logged.None? || admins == [] ==>
                    SentWith(old(syn.notices), syn.notices, CommandKinds(args.command)))
              && (exit.logged.Some? && admins != [] ==>
                    |old(syn.notices)| < |syn.notices|
                    && SentWith(old(syn.notices), syn.notices[..|syn.notices| - 1], CommandKinds(args.command))
                    && syn.notices[|syn.notices| - 1]
                       == ErrorNotice(admins, entityNames[args.challengeSynId], exit.logged.value, args))
    ensures syn.projects == old(syn.projects) && syn.submissions == old(syn.submissions)
  {
    if args.challengeSynId !in entityNames {
      return Threw(ValueError, ChallengeNotFound);
    }
    var challengeName := entityNames[args.challengeSynId];
    var admins := Admins(args.adminUserIds, syn.ownerId);
    var maps := BuildQueueMaps(config);
    if maps.Failure? {
      return Threw(KeyError, maps.error);
    }
    if !lockFree {
      return Exited(LockedExitCode);
    }
    var opts := RunOptions(admins, args.sendMessages, args.acknowledgeReceipt, args.dryRun, syn.profileOf);
    var err := RunLocked(syn, lock, maps.value, args, opts, challengeName);
    exit := Completed(err);
  }
}
