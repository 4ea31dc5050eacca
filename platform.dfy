/**
 * The part of the Synapse service the core talks to, as abstract state:
 * submissions and their statuses, the statuses stored by the client, the
 * messages sent through it and the projects it created. Network access,
 * authentication and retries are not part of this model.
 */
module Platform {
  import opened Wrappers
  import opened Annotations
  import Text
  import Seqs

  /** The `status` field of a submission status. */
  datatype Label = Received | Validated | Invalid | Scored | OtherLabel(name: string)

  datatype SubmissionStatus = SubmissionStatus(id: string, status: Label, annotations: StatusAnnotations)

  datatype Submission = Submission(
    id: string, name: string, userId: string, evaluationId: string,
    entityId: string, entityName: string,
    /** `filePath`: absent when the submission is not a file (a Docker image, say). */
    filePath: Option<string>)

  datatype Evaluation = Evaluation(id: string, name: string)

  /** An evaluation queue as the code receives it: an object or its id. */
  datatype EvaluationRef = EvaluationObject(evaluation: Evaluation) | EvaluationId(id: string)

  /** `getUserProfile()`: the optional names and the user name. */
  datatype Profile = Profile(firstName: Option<string>, lastName: Option<string>, userName: string)

  /** Which function of the `messages` script was called. */
  datatype NoticeKind = ValidationPassed | ValidationFailed | ScoringSucceeded | ScoringError | ErrorNotification

  /**
   * One call into the `messages` script: its recipients, the name it greets
   * them with, the queue and submission it is about, the message text, the
   * flag that lets it send at all and `dry_run`.
   */
  datatype Notice = Notice(
    kind: NoticeKind, userIds: seq<string>, username: string, queueName: string,
    submissionId: string, message: string, enabled: bool, dryRun: bool)

  /** A project created by the client, and the entity whose content was copied into it. */
  datatype Project = Project(id: string, name: string, copiedFrom: string)

  /** The submissions of `subs` in evaluation `evaluationId` whose status carries `wanted`, with that status. */
  function BundlesOf(subs: seq<Submission>, statuses: map<string, SubmissionStatus>,
                     evaluationId: string, wanted: Label): (r: seq<(Submission, SubmissionStatus)>)
    ensures |r| <= |subs|
    ensures forall i :: 0 <= i < |r| ==>
              r[i].0 in subs && r[i].0.evaluationId == evaluationId
              && r[i].0.id in statuses && r[i].1 == statuses[r[i].0.id] && r[i].1.status == wanted
    ensures forall s :: (s in subs && s.evaluationId == evaluationId && s.id in statuses
                         && statuses[s.id].status == wanted) ==> (s, statuses[s.id]) in r
  {
    if subs == [] then []
    else
      var s := subs[0];
      (if s.evaluationId == evaluationId && s.id in statuses && statuses[s.id].status == wanted
       then [(s, statuses[s.id])] else [])
      + BundlesOf(subs[1..], statuses, evaluationId, wanted)
  }

  /** Bundles keep the order of the submissions: those of a concatenation are the concatenation of the bundles. */
  lemma {:induction false} BundlesOfAppend(a: seq<Submission>, b: seq<Submission>, statuses: map<string, SubmissionStatus>,
                                           evaluationId: string, wanted: Label)
    ensures BundlesOf(a + b, statuses, evaluationId, wanted)
            == BundlesOf(a, statuses, evaluationId, wanted) + BundlesOf(b, statuses, evaluationId, wanted)
  {
    if a == [] {
      assert a + b == b;
    } else {
      Seqs.TailAppend(a, b);
      BundlesOfAppend(a[1..], b, statuses, evaluationId, wanted);
      var s := a[0];
      var head := if s.evaluationId == evaluationId && s.id in statuses && statuses[s.id].status == wanted
                  then [(s, statuses[s.id])] else [];
      Seqs.AppendAssoc(head, BundlesOf(a[1..], statuses, evaluationId, wanted), BundlesOf(b, statuses, evaluationId, wanted));
    }
  }

  /** `syn.getEvaluation(ref)` unless `ref` already is an evaluation. */
  function ResolveEvaluation(evaluations: map<string, Evaluation>, ref: EvaluationRef): (r: Result<Evaluation, string>)
    ensures ref.EvaluationObject? ==> r == Success(ref.evaluation)
    ensures ref.EvaluationId? ==> (r.Success? <==> ref.id in evaluations)
    ensures ref.EvaluationId? && r.Success? ==> r.value == evaluations[ref.id]
  {
    match ref
    case EvaluationObject(e) => Success(e)
    case EvaluationId(id) =>
      if id in evaluations then Success(evaluations[id]) else Failure(EvaluationNotFound)
  }

  const EvaluationNotFound := "The evaluation queue does not exist"

  /** The statuses after each of `records` was stored in turn on top of `statuses`. */
  function Restore(statuses: map<string, SubmissionStatus>, records: seq<SubmissionStatus>)
    : (r: map<string, SubmissionStatus>)
    ensures forall id :: id in r && (forall k :: 0 <= k < |records| ==> records[k].id != id)
              ==> id in statuses && r[id] == statuses[id]
    ensures forall id :: id in statuses ==> id in r
    ensures (forall id :: id in statuses ==> statuses[id].id == id) ==> forall id :: id in r ==> r[id].id == id
    decreases |records|
  {
    if records == [] then statuses
    else
      var last := records[|records| - 1];
      Restore(statuses, records[..|records| - 1])[last.id := last]
  }

  /** Storing `a` and then `b` is storing `a + b`. */
  lemma {:induction false} RestoreAppend(statuses: map<string, SubmissionStatus>, a: seq<SubmissionStatus>,
                                         b: seq<SubmissionStatus>)
    ensures Restore(statuses, a + b) == Restore(Restore(statuses, a), b)
    decreases |b|
  {
    if b == [] {
      assert a + b == a;
    } else {
      var last := b[|b| - 1];
      assert (a + b)[..|a + b| - 1] == a + b[..|b| - 1];
      RestoreAppend(statuses, a, b[..|b| - 1]);
    }
  }

  /** The client and the state of the service behind it. */
  class Synapse {
    /** The submissions of every queue, in the order the service lists them. */
    var submissions: seq<Submission>
    /** The current status of each submission, by submission id. */
    var statuses: map<string, SubmissionStatus>
    /** Every status written with `store`, in order. */
    var stored: seq<SubmissionStatus>
    /** Every call into the `messages` script, in order. */
    var notices: seq<Notice>
    /** Every project created, in order. */
    var projects: seq<Project>
    /** The statuses before this client stored anything. */
    ghost const initialStatuses: map<string, SubmissionStatus>
    /** The evaluation queues, by id. */
    const evaluations: map<string, Evaluation>
    /** `getUserProfile(userId)`. */
    const profileOf: string -> Profile
    /** The `ownerId` of the logged-in user. */
    const ownerId: string

    ghost predicate Valid()
      reads this
    {
      && (forall id :: id in statuses ==> statuses[id].id == id)
      && statuses == Restore(initialStatuses, stored)
    }

    constructor (subs: seq<Submission>, sts: map<string, SubmissionStatus>,
                 evals: map<string, Evaluation>, profiles: string -> Profile, owner: string)
      requires forall id :: id in sts ==> sts[id].id == id
      ensures Valid()
      ensures submissions == subs && statuses == sts && evaluations == evals
      ensures profileOf == profiles && ownerId == owner
      ensures stored == [] && notices == [] && projects == []
    {
      submissions, statuses, evaluations := subs, sts, evals;
      initialStatuses := sts;
      profileOf, ownerId := profiles, owner;
      stored, notices, projects := [], [], [];
    }

    /** `getSubmissionBundles(evaluation, status=wanted)`. */
    function Bundles(evaluationId: string, wanted: Label): seq<(Submission, SubmissionStatus)>
      reads this
    {
      BundlesOf(submissions, statuses, evaluationId, wanted)
    }

    /** `store(status)`: the status becomes the submission's current one. */
    method Store(s: SubmissionStatus)
      requires Valid()
      modifies this
      ensures Valid()
      ensures statuses == old(statuses)[s.id := s]
      ensures stored == old(stored) + [s]
      ensures submissions == old(submissions) && notices == old(notices) && projects == old(projects)
    {
      statuses := statuses[s.id := s];
      assert (stored + [s])[..|stored|] == stored;
      stored := stored + [s];
    }

    /**
     * Whatever was stored since `stored0`, a past content of the log, was
     * stored on top of the statuses of that time.
     */
    lemma StoredSince(stored0: seq<SubmissionStatus>, statuses0: map<string, SubmissionStatus>,
                      records: seq<SubmissionStatus>)
      requires Valid() && statuses0 == Restore(initialStatuses, stored0) && stored == stored0 + records
      ensures statuses == Restore(statuses0, records)
    {
      RestoreAppend(initialStatuses, stored0, records);
    }

    /** A call into the `messages` script. */
    method Send(n: Notice)
      modifies this
      ensures notices == old(notices) + [n]
      ensures submissions == old(submissions) && statuses == old(statuses)
      ensures stored == old(stored) && projects == old(projects)
    {
      notices := notices + [n];
    }

    /** `store(Project(name))` followed by copying the content of `source` into it. */
    method CreateProject(name: string, source: string) returns (p: Project)
      modifies this
      ensures p == Project(NewProjectId(old(|projects|)), name, source)
      ensures projects == old(projects) + [p]
      ensures submissions == old(submissions) && statuses == old(statuses)
      ensures stored == old(stored) && notices == old(notices)
    {
      p := Project(NewProjectId(|projects|), name, source);
      projects := projects + [p];
    }
  }

  /**
   * User code the model cannot see, known only through the calls made to
   * it: each call is recorded with its argument and raises what `raises`
   * says, or returns normally.
   */
  class Callable<A> {
    /** The argument of every call, in order. */
    var calls: seq<A>
    /** The exception text a call raises, if it raises. */
    const raises: A -> Option<string>

    constructor (r: A -> Option<string>)
      ensures calls == [] && raises == r
    {
      calls, raises := [], r;
    }

    method Call(arg: A) returns (err: Option<string>)
      modifies this
      ensures calls == old(calls) + [arg]
      ensures err == raises(arg)
    {
      calls := calls + [arg];
      err := raises(arg);
    }
  }

  /**
   * The lock that keeps two harness runs apart. Whether acquiring it
   * succeeds is decided outside the model; only holding and releasing it is
   * recorded.
   */
  class ChallengeLock {
    var held: bool
    /** How often the lock was released. */
    var releases: nat

    constructor ()
      ensures !held && releases == 0
    {
      held, releases := false, 0;
    }

    /** A successful `acquire_lock_or_fail`. */
    method Acquire()
      modifies this
      ensures held && releases == old(releases)
    {
      held := true;
    }

    method Release()
      modifies this
      ensures !held && releases == old(releases) + 1
    {
      held, releases := false, releases + 1;
    }
  }

  /**
   * The id the service gives the `n`-th project this client creates. Any
   * injective choice would do; only distinctness is used.
   */
  function NewProjectId(n: nat): (id: string)
    ensures |id| > 3 && id[..3] == "syn"
  {
    "syn" + Text.DecimalString(n)
  }

  /** Projects created at different times get different ids. */
  lemma NewProjectIdInjective(m: nat, n: nat)
    requires NewProjectId(m) == NewProjectId(n)
    ensures m == n
  {
    assert NewProjectId(m)[3..] == Text.DecimalString(m);
    assert NewProjectId(n)[3..] == Text.DecimalString(n);
    Text.DecimalInjective(m, n);
  }
}
