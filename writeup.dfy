/**
 * Archiving the writeups of a challenge (`challengeutils.writeup_attacher`,
 * whose behaviour is fixed by its tests): copy the project a participant
 * submitted into a new archive project, and point the submission status at
 * the archive with an "archived" annotation.
 */
module Writeup {
  import opened Wrappers
  import opened Annotations
  import opened Platform
  import opened Utils
  import Text
  import opened Seqs

  const ArchivedKey := "archived"
  const SubmissionNotFound := "The submission does not exist"

  /**
   * The name of an archive project: the entity's name, the time in
   * milliseconds, the submission id and the entity id. `now` is the clock
   * in whole seconds.
   */
  function ArchiveName(sub: Submission, now: nat): string {
    "Archived " + sub.entityName + " " + Text.DecimalString(now * 1000) + " " + sub.id + " " + sub.entityId
  }

  /** The name is the five fields joined by single spaces. */
  lemma ArchiveNameFields(sub: Submission, now: nat)
    ensures ArchiveName(sub, now)
         == Text.Join(["Archived", sub.entityName, Text.DecimalString(now * 1000), sub.id, sub.entityId], " ")
  {
    Text.JoinFive("Archived", sub.entityName, Text.DecimalString(now * 1000), sub.id, sub.entityId, " ");
  }

  /** At ten seconds past the epoch the time field reads "10000". */
  lemma ArchiveNameAtTen(sub: Submission)
    ensures ArchiveName(sub, 10) == "Archived " + sub.entityName + " 10000 " + sub.id + " " + sub.entityId
  {
    assert Text.DecimalString(1) == "1";
    assert Text.DecimalString(10) == "10";
    assert Text.DecimalString(100) == "100";
    assert Text.DecimalString(1000) == "1000";
    assert Text.DecimalString(10000) == "10000";
  }

  /** `_create_archive_writeup(syn, submission)`: a new project, filled with a copy of the submitted entity. */
  method CreateArchiveWriteup(syn: Synapse, sub: Submission, now: nat) returns (p: Project)
    modifies syn
    ensures p == Project(NewProjectId(old(|syn.projects|)), ArchiveName(sub, now), sub.entityId)
    ensures syn.projects == old(syn.projects) + [p]
    ensures syn.submissions == old(syn.submissions) && syn.statuses == old(syn.statuses)
    ensures syn.stored == old(syn.stored) && syn.notices == old(syn.notices)
  {
    p := syn.CreateProject(ArchiveName(sub, now), sub.entityId);
  }

  /** The first entry of `es` under key `k`. */
  function FirstWithKey(es: seq<Entry>, k: string): (r: Option<Entry>)
    ensures r.Some? ==> r.value in es && r.value.key == k
    ensures r.None? <==> forall e :: e in es ==> e.key != k
  {
    if es == [] then None else if es[0].key == k then Some(es[0]) else FirstWithKey(es[1..], k)
  }

  /** The value of the "archived" annotation, whatever its type and privacy. */
  function ArchivedPointer(a: StatusAnnotations): (r: Option<Value>)
    ensures r.None? <==> forall e :: e in a.All() ==> e.key != ArchivedKey
    ensures r.Some? ==> exists e :: e in a.All() && e.key == ArchivedKey && e.value == r.value
  {
    match FirstWithKey(a.All(), ArchivedKey)
    case None => None
    case Some(e) => Some(e.value)
  }

  /** `syn.getSubmission(id)`: the first listed submission with that id. */
  function FindSubmission(subs: seq<Submission>, id: string): (r: Option<Submission>)
    ensures r.Some? ==> r.value in subs && r.value.id == id
    ensures r.None? <==> forall s :: s in subs ==> s.id != id
  {
    if subs == [] then None else if subs[0].id == id then Some(subs[0]) else FindSubmission(subs[1..], id)
  }

  /** The annotation merge that points a status at archive `projectId`. */
  function PointAt(status: SubmissionStatus, projectId: string): Result<SubmissionStatus, string> {
    UpdateSingleSubmissionStatus(status, Plain([(ArchivedKey, Str(projectId))]), false, false)
  }

  /**
   * Once a well-formed status points at an archive, reading its "archived"
   * annotation gives that archive; the status stays well formed.
   */
  lemma PointAtReadsBack(status: SubmissionStatus, projectId: string)
    requires WellFormed(status.annotations)
    requires PointAt(status, projectId).Success?
    ensures ArchivedPointer(PointAt(status, projectId).value.annotations) == Some(Str(projectId))
    ensures WellFormed(PointAt(status, projectId).value.annotations)
  {
    var d: AnnotationDict := [(ArchivedKey, Str(projectId))];
    var add := Plain(d);
    var e := Entry(ArchivedKey, Str(projectId), true);
    assert AdditionWellFormed(add);
    AsEntriesMembers(d, true, e);
    UpdateMembership(status.annotations, add, false, false, e);
    UpdateWellFormed(status.annotations, add, false, false);
  }

  /**
   * `archive_writeup(syn, submissionid, rearchive=False)`: return the
   * archive the status already points at, unless there is none or
   * `rearchive` is set; then create an archive, point the status at it,
   * store the status once and return the new archive's id.
   */
  method ArchiveWriteup(syn: Synapse, submissionId: string, now: nat, rearchive: bool := false)
    returns (r: Result<Value, string>)
    requires syn.Valid()
    modifies syn
    ensures syn.Valid()
    ensures FindSubmission(old(syn.submissions), submissionId).None? ==>
              r == Failure(SubmissionNotFound) && unchanged(syn)
    ensures FindSubmission(old(syn.submissions), submissionId).Some? && submissionId !in old(syn.statuses) ==>
              r == Failure(StatusNotFound) && unchanged(syn)
    ensures FindSubmission(old(syn.submissions), submissionId).Some? && submissionId in old(syn.statuses) ==>
              var sub := FindSubmission(old(syn.submissions), submissionId).value;
              var status := old(syn.statuses)[submissionId];
              var pointer := ArchivedPointer(status.annotations);
              && (pointer.Some? && !rearchive ==> r == Success(pointer.value) && unchanged(syn))
              && (pointer.None? || rearchive ==>
                    var p := Project(NewProjectId(old(|syn.projects|)), ArchiveName(sub, now), sub.entityId);
                    && syn.projects == old(syn.projects) + [p]
                    && (PointAt(status, p.id).Success? ==>
                          r == Success(Str(p.id))
                          && syn.stored == old(syn.stored) + [PointAt(status, p.id).value]
                          && syn.statuses == old(syn.statuses)[submissionId := PointAt(status, p.id).value])
                    && (PointAt(status, p.id).Failure? ==>
                          r == Failure(PointAt(status, p.id).error)
                          && syn.stored == old(syn.stored) && syn.statuses == old(syn.statuses)))
    ensures r.Success? && WellFormed(old(syn.statuses)[submissionId].annotations) ==>
              WellFormed(syn.statuses[submissionId].annotations)
              && ArchivedPointer(syn.statuses[submissionId].annotations) == Some(r.value)
    ensures syn.submissions == old(syn.submissions) && syn.notices == old(syn.notices)
  {
    var sub := FindSubmission(syn.submissions, submissionId);
    if sub.None? {
      return Failure(SubmissionNotFound);
    }
    if submissionId !in syn.statuses {
      return Failure(StatusNotFound);
    }
    var status := syn.statuses[submissionId];
    var pointer := ArchivedPointer(status.annotations);
    if pointer.Some? && !rearchive {
      return Success(pointer.value);
    }
    var project := CreateArchiveWriteup(syn, sub.value, now);
    var updated := PointAt(status, project.id);
    if updated.Failure? {
      return Failure(updated.error);
    }
    if WellFormed(status.annotations) {
      PointAtReadsBack(status, project.id);
    }
    syn.Store(updated.value);
    r := Success(Str(project.id));
  }

  /**
   * Archiving the same submission twice without `rearchive`: the second
   * call returns what the first returned and creates, stores and changes
   * nothing.
   */
  method ArchiveTwice(syn: Synapse, submissionId: string, now: nat, later: nat)
    returns (first: Result<Value, string>, second: Result<Value, string>)
    requires syn.Valid()
    requires submissionId in syn.statuses && WellFormed(syn.statuses[submissionId].annotations)
    modifies syn
    ensures first.Success? ==> second == first
    ensures first.Success? ==> |syn.projects| <= |old(syn.projects)| + 1
  {
    first := ArchiveWriteup(syn, submissionId, now);
    ghost var projects1 := syn.projects;
    second := ArchiveWriteup(syn, submissionId, later);
    if first.Success? {
      assert syn.projects == projects1;
    }
  }

  /** `v` is the id of one of the projects `created`. */
  ghost predicate CreatedId(v: Value, created: seq<Project>) {
    exists p :: p in created && v == Str(p.id)
  }

  /**
   * Since the statuses were `statuses0`, every status is well formed and
   * every status that changed points at a project in `created`.
   */
  ghost predicate PointedSince(statuses0: map<string, SubmissionStatus>, statuses: map<string, SubmissionStatus>,
                               created: seq<Project>)
  {
    && (forall id :: id in statuses ==> WellFormed(statuses[id].annotations))
    && (forall id :: id in statuses0 ==>
          && id in statuses
          && (statuses[id] == statuses0[id]
              || (ArchivedPointer(statuses[id].annotations).Some?
                  && CreatedId(ArchivedPointer(statuses[id].annotations).value, created))))
  }

  /** Creating more projects keeps every pointer at a created project. */
  lemma PointedSinceGrows(statuses0: map<string, SubmissionStatus>, statuses: map<string, SubmissionStatus>,
                          c1: seq<Project>, c2: seq<Project>)
    requires PointedSince(statuses0, statuses, c1)
    requires forall p :: p in c1 ==> p in c2
    ensures PointedSince(statuses0, statuses, c2)
  {
    forall id | id in statuses0 && statuses[id] != statuses0[id]
      ensures CreatedId(ArchivedPointer(statuses[id].annotations).value, c2)
    {
      var p :| p in c1 && ArchivedPointer(statuses[id].annotations).value == Str(p.id);
      assert p in c2;
    }
  }

  /**
   * Each value of `archived` is the pointer the status of its bundle held,
   * or the id of a project in `created`.
   */
  ghost predicate ArchivedOrCreated(archived: seq<Value>, bs: seq<(Submission, SubmissionStatus)>,
                                    created: seq<Project>)
    requires |archived| <= |bs|
  {
    forall j :: 0 <= j < |archived| ==>
      ArchivedPointer(bs[j].1.annotations) == Some(archived[j]) || CreatedId(archived[j], created)
  }

  lemma ArchivedOrCreatedGrows(archived: seq<Value>, bs: seq<(Submission, SubmissionStatus)>,
                               c1: seq<Project>, c2: seq<Project>)
    requires |archived| <= |bs| && ArchivedOrCreated(archived, bs, c1)
    requires forall p :: p in c1 ==> p in c2
    ensures ArchivedOrCreated(archived, bs, c2)
  {
    forall j | 0 <= j < |archived| && !(ArchivedPointer(bs[j].1.annotations) == Some(archived[j]))
      ensures CreatedId(archived[j], c2)
    {
      var p :| p in c1 && archived[j] == Str(p.id);
      assert p in c2;
    }
  }

  /**
   * The state of `archive_writeups` after the bundles `bs[..|archived|]`:
   * projects were only added, at most one per bundle and exactly one each
   * under `rearchive`, in order; and when the statuses were well formed at
   * the start, every status that changed and every listed value that is
   * not the bundle's old pointer refer to a project of this run.
   */
  ghost predicate Progress(syn: Synapse, bs: seq<(Submission, SubmissionStatus)>, archived: seq<Value>,
                           statuses0: map<string, SubmissionStatus>, projects0: seq<Project>,
                           wellFormed: bool, rearchive: bool)
    reads syn
  {
    && |archived| <= |bs|
    && |projects0| <= |syn.projects| <= |projects0| + |archived|
    && syn.projects[..|projects0|] == projects0
    && (wellFormed ==>
          PointedSince(statuses0, syn.statuses, syn.projects[|projects0|..])
          && ArchivedOrCreated(archived, bs, syn.projects[|projects0|..]))
    && (rearchive ==>
          |syn.projects| == |projects0| + |archived|
          && forall j :: 0 <= j < |archived| ==> archived[j] == Str(syn.projects[|projects0| + j].id))
  }

  /**
   * What `archive_writeups` relies on from one `archive_writeup` call:
   * projects are only added, one at most; a status changes only at the
   * submission, by a success that points it at the new project; and a
   * success without a new project returns the pointer the status held.
   */
  method ArchiveCall(syn: Synapse, submissionId: string, now: nat, rearchive: bool) returns (r: Result<Value, string>)
    requires syn.Valid()
    modifies syn
    ensures syn.Valid()
    ensures syn.submissions == old(syn.submissions) && syn.notices == old(syn.notices)
    ensures |old(syn.projects)| <= |syn.projects| <= |old(syn.projects)| + 1
    ensures syn.projects[..|old(syn.projects)|] == old(syn.projects)
    ensures r.Success? && |syn.projects| == |old(syn.projects)| ==>
              !rearchive && submissionId in old(syn.statuses)
              && ArchivedPointer(old(syn.statuses)[submissionId].annotations) == Some(r.value)
    ensures r.Success? && |syn.projects| > |old(syn.projects)| ==> r.value == Str(syn.projects[|old(syn.projects)|].id)
    ensures syn.statuses == old(syn.statuses)
            || (r.Success? && submissionId in old(syn.statuses) && submissionId in syn.statuses
                && syn.statuses == old(syn.statuses)[submissionId := syn.statuses[submissionId]]
                && |syn.projects| > |old(syn.projects)|
                && (WellFormed(old(syn.statuses)[submissionId].annotations) ==>
                      WellFormed(syn.statuses[submissionId].annotations)
                      && ArchivedPointer(syn.statuses[submissionId].annotations) == Some(r.value)))
  {
    r := ArchiveWriteup(syn, submissionId, now, rearchive);
    assert syn.projects[..|old(syn.projects)|] == old(syn.projects);
  }

  /**
   * One turn of `archive_writeups`: one `archive_writeup` call for the
   * next bundle. On success its value extends the list and the progress
   * holds one bundle further; either way projects are only added.
   */
  method ArchiveStep(syn: Synapse, bs: seq<(Submission, SubmissionStatus)>, archived: seq<Value>, now: nat,
                     rearchive: bool, ghost statuses0: map<string, SubmissionStatus>, ghost projects0: seq<Project>,
                     ghost wellFormed: bool)
    returns (r: Result<Value, string>)
    requires syn.Valid() && |archived| < |bs|
    requires bs[|archived|].0.id in statuses0 && bs[|archived|].1 == statuses0[bs[|archived|].0.id]
    requires Progress(syn, bs, archived, statuses0, projects0, wellFormed, rearchive)
    modifies syn
    ensures syn.Valid()
    ensures syn.submissions == old(syn.submissions) && syn.notices == old(syn.notices)
    ensures |projects0| <= |syn.projects| && syn.projects[..|projects0|] == projects0
    ensures r.Success? ==> Progress(syn, bs, archived + [r.value], statuses0, projects0, wellFormed, rearchive)
  {
    ghost var before, projects1 := syn.statuses, syn.projects;
    var id := bs[|archived|].0.id;
    r := ArchiveCall(syn, id, now, rearchive);
    assert syn.projects[..|projects0|] == projects1[..|projects0|];
    if r.Failure? {
      return;
    }
    SuffixGrows(projects1, syn.projects, |projects0|);
    var created0, created1 := projects1[|projects0|..], syn.projects[|projects0|..];
    if |syn.projects| > |projects1| {
      assert syn.projects[|syn.projects| - 1] == created1[|created1| - 1];
    }
    if wellFormed {
      PointedSinceGrows(statuses0, before, created0, created1);
      ArchivedOrCreatedGrows(archived, bs, created0, created1);
      if syn.statuses != before {
        ArchivedStatus(statuses0, before, syn.statuses, id, created1);
      }
      ArchivedOrCreatedSnoc(archived, bs, r.value, created1);
    }
  }

  /** Appending a value that is the bundle's old pointer or a created id keeps `ArchivedOrCreated`. */
  lemma ArchivedOrCreatedSnoc(archived: seq<Value>, bs: seq<(Submission, SubmissionStatus)>, v: Value,
                              created: seq<Project>)
    requires |archived| < |bs| && ArchivedOrCreated(archived, bs, created)
    requires ArchivedPointer(bs[|archived|].1.annotations) == Some(v) || CreatedId(v, created)
    ensures ArchivedOrCreated(archived + [v], bs, created)
  {
    var a := archived + [v];
    forall j | 0 <= j < |a| ensures ArchivedPointer(bs[j].1.annotations) == Some(a[j]) || CreatedId(a[j], created) {
      if j < |archived| {
        assert a[j] == archived[j];
      }
    }
  }

  /** Replacing one well-formed status with one pointing at a created project keeps `PointedSince`. */
  lemma ArchivedStatus(statuses0: map<string, SubmissionStatus>, before: map<string, SubmissionStatus>,
                       after: map<string, SubmissionStatus>, id: string, created: seq<Project>)
    requires PointedSince(statuses0, before, created)
    requires id in before && id in after && after == before[id := after[id]]
    requires WellFormed(after[id].annotations)
    requires ArchivedPointer(after[id].annotations).Some? && CreatedId(ArchivedPointer(after[id].annotations).value, created)
    ensures PointedSince(statuses0, after, created)
  {
  }

  /**
   * `archive_writeups(syn, evaluation, status="VALIDATED", rearchive=False)`:
   * archive the writeup of every bundle of the queue carrying `wanted`, in
   * bundle order, one `archive_writeup` call each, and list what they return.
   */
  /** Once every bundle is archived, the progress made is the outcome `archive_writeups` reports. */
  lemma ProgressDone(syn: Synapse, bs: seq<(Submission, SubmissionStatus)>, archived: seq<Value>,
                     statuses0: map<string, SubmissionStatus>, projects0: seq<Project>,
                     wellFormed: bool, rearchive: bool)
    requires Progress(syn, bs, archived, statuses0, projects0, wellFormed, rearchive) && |archived| == |bs|
    requires forall i :: 0 <= i < |bs| ==> bs[i].0.id in statuses0 && bs[i].1 == statuses0[bs[i].0.id]
    ensures |syn.projects| <= |projects0| + |bs|
    ensures wellFormed ==>
              forall i :: 0 <= i < |bs| ==>
                ArchivedPointer(statuses0[bs[i].0.id].annotations) == Some(archived[i])
                || CreatedId(archived[i], syn.projects[|projects0|..])
    ensures rearchive ==>
              |syn.projects| == |projects0| + |bs|
              && forall i :: 0 <= i < |bs| ==> archived[i] == Str(syn.projects[|projects0| + i].id)
  {
  }

  method ArchiveWriteups(syn: Synapse, evaluation: EvaluationRef, now: nat, wanted: Label := Validated,
                         rearchive: bool := false) returns (r: Result<seq<Value>, string>)
    requires syn.Valid()
    modifies syn
    ensures syn.Valid()
    ensures ResolveEvaluation(syn.evaluations, evaluation).Failure? ==>
              r == Failure(EvaluationNotFound) && unchanged(syn)
    ensures |old(syn.projects)| <= |syn.projects| && syn.projects[..|old(syn.projects)|] == old(syn.projects)
    ensures ResolveEvaluation(syn.evaluations, evaluation).Success? && r.Success? ==>
              var bs := old(syn.Bundles(ResolveEvaluation(syn.evaluations, evaluation).value.id, wanted));
              && |r.value| == |bs|
              && |syn.projects| <= |old(syn.projects)| + |bs|
              && ((forall id :: id in old(syn.statuses) ==> WellFormed(old(syn.statuses)[id].annotations)) ==>
                    forall i :: 0 <= i < |bs| ==>
                      ArchivedPointer(old(syn.statuses)[bs[i].0.id].annotations) == Some(r.value[i])
                      || CreatedId(r.value[i], syn.projects[|old(syn.projects)|..]))
              && (rearchive ==>
                    |syn.projects| == |old(syn.projects)| + |bs|
                    && forall i :: 0 <= i < |bs| ==> r.value[i] == Str(syn.projects[|old(syn.projects)| + i].id))
    ensures syn.submissions == old(syn.submissions) && syn.notices == old(syn.notices)
  {
    var resolved := ResolveEvaluation(syn.evaluations, evaluation);
    if resolved.Failure? {
      return Failure(resolved.error);
    }
    var bs := syn.Bundles(resolved.value.id, wanted);
    ghost var projects0, statuses0 := syn.projects, syn.statuses;
    ghost var wellFormed := forall id :: id in statuses0 ==> WellFormed(statuses0[id].annotations);
    assert syn.projects[..|projects0|] == projects0;
    var archived: seq<Value> := [];
    while |archived| < |bs|
      invariant syn.Valid()
      invariant syn.submissions == old(syn.submissions) && syn.notices == old(syn.notices)
      invariant Progress(syn, bs, archived, statuses0, projects0, wellFormed, rearchive)
      decreases |bs| - |archived|
    {
      var one := ArchiveStep(syn, bs, archived, now, rearchive, statuses0, projects0, wellFormed);
      if one.Failure? {
        return Failure(one.error);
      }
      archived := archived + [one.value];
    }
    ProgressDone(syn, bs, archived, statuses0, projects0, wellFormed, rearchive);
    r := Success(archived);
  }
}
