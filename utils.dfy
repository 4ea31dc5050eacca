/**
 * `challengeutils.utils` as far as the core uses it: the annotation merge on
 * a whole submission status, and `annotate_submission`, which reads a
 * status, merges new annotations into it and stores it.
 */
module Utils {
  import opened Wrappers
  import opened Dicts
  import opened Annotations
  import opened Platform

  /**
   * `update_single_submission_status(status, add, to_public, force)`: the
   * status with merged annotations, or the ValueError message of a refused
   * privacy flip. The id and the status label are kept.
   */
  function UpdateSingleSubmissionStatus(status: SubmissionStatus, add: Addition, toPublic: bool, force: bool)
    : (r: Result<SubmissionStatus, string>)
    ensures r.Success? <==> UpdateAnnotations(status.annotations, add, toPublic, force).Success?
    ensures r.Success? ==> r.value.id == status.id && r.value.status == status.status
                           && r.value.annotations == UpdateAnnotations(status.annotations, add, toPublic, force).value
    ensures r.Failure? ==> r.error == UpdateAnnotations(status.annotations, add, toPublic, force).error
  {
    match UpdateAnnotations(status.annotations, add, toPublic, force)
    case Success(a) => Success(status.(annotations := a))
    case Failure(msg) => Failure(msg)
  }

  /** `{k: v for k, v in values.items() if v is not None}`. */
  function DropNone(values: Dict<string, Option<Value>>): (r: AnnotationDict)
    ensures |r| <= |values|
  {
    if values == [] then []
    else (if values[0].1.Some? then [(values[0].0, values[0].1.value)] else []) + DropNone(values[1..])
  }

  /** The pairs kept are exactly those whose value is not None. */
  lemma {:induction false} DropNoneMembers(values: Dict<string, Option<Value>>, k: string, v: Value)
    ensures (k, v) in DropNone(values) <==> (k, Some(v)) in values
  {
    if values != [] {
      DropNoneMembers(values[1..], k, v);
      assert values == [values[0]] + values[1..];
    }
  }

  /** Dropping pairs keeps the keys distinct. */
  lemma {:induction false} DropNoneDistinct(values: Dict<string, Option<Value>>)
    requires DistinctKeys(values)
    ensures DistinctKeys(DropNone(values))
  {
    if values != [] {
      DropNoneDistinct(values[1..]);
      var k := values[0].0;
      if values[0].1.Some? {
        assert k !in Keys(DropNone(values[1..])) by {
          KeysMembers(DropNone(values[1..]), k);
          KeysMembers(values[1..], k);
          forall v ensures (k, v) !in DropNone(values[1..]) {
            DropNoneMembers(values[1..], k, v);
          }
        }
        var r := DropNone(values);
        assert r[0].0 == k && r[1..] == DropNone(values[1..]);
      } else {
        assert DropNone(values) == DropNone(values[1..]);
      }
    }
  }

  /** The keys a plain dict requests are its keys. */
  lemma PlainRequestedKeys(d: AnnotationDict, toPublic: bool, k: string)
    ensures k in RequestedKeys(Plain(d), toPublic) <==> k in Keys(d)
  {
    KeysMembers(d, k);
    if k in Keys(d) {
      var v :| (k, v) in d;
      AsEntriesMembers(d, !toPublic, Entry(k, v, !toPublic));
    }
    if k in RequestedKeys(Plain(d), toPublic) {
      var e :| e in Requested(Plain(d), toPublic) && e.key == k;
      AsEntriesMembers(d, !toPublic, e);
    }
  }

  const StatusNotFound := "The submission status does not exist"

  /**
   * `annotate_submission(syn, submission_id, values, to_public, force)`:
   * read the status once, merge the values that are not None, store the
   * result once. A refused privacy flip raises before anything is stored.
   */
  method AnnotateSubmission(syn: Synapse, submissionId: string, values: Dict<string, Option<Value>>,
                            toPublic: bool, force: bool) returns (r: Result<SubmissionStatus, string>)
    requires syn.Valid()
    modifies syn
    ensures syn.Valid()
    ensures submissionId !in old(syn.statuses) ==> r == Failure(StatusNotFound)
    ensures submissionId in old(syn.statuses) ==>
              r == UpdateSingleSubmissionStatus(old(syn.statuses)[submissionId], Plain(DropNone(values)),
                                                toPublic, force)
    ensures r.Success? ==> syn.stored == old(syn.stored) + [r.value]
                           && syn.statuses == old(syn.statuses)[r.value.id := r.value]
    ensures r.Failure? ==> syn.stored == old(syn.stored) && syn.statuses == old(syn.statuses)
    ensures syn.notices == old(syn.notices) && syn.projects == old(syn.projects)
    ensures syn.submissions == old(syn.submissions)
  {
    if submissionId !in syn.statuses {
      return Failure(StatusNotFound);
    }
    var status := syn.statuses[submissionId];
    r := UpdateSingleSubmissionStatus(status, Plain(DropNone(values)), toPublic, force);
    if r.Success? {
      syn.Store(r.value);
    }
  }

  /**
   * After `annotate_submission` the status holds each value that was not
   * None, with the requested privacy, and keeps every other existing
   * annotation whose key was not given a value.
   */
  lemma AnnotatedEntries(existing: StatusAnnotations, values: Dict<string, Option<Value>>,
                         toPublic: bool, force: bool, e: Entry)
    requires WellFormed(existing) && DistinctKeys(values)
    requires UpdateAnnotations(existing, Plain(DropNone(values)), toPublic, force).Success?
    ensures e in UpdateAnnotations(existing, Plain(DropNone(values)), toPublic, force).value.All()
        <==> (e.isPrivate == !toPublic && (e.key, Some(e.value)) in values)
             || (e in existing.All() && forall v :: (e.key, Some(v)) !in values)
  {
    var d := DropNone(values);
    DropNoneDistinct(values);
    UpdateMembership(existing, Plain(d), toPublic, force, e);
    AsEntriesMembers(d, !toPublic, e);
    DropNoneMembers(values, e.key, e.value);
    PlainRequestedKeys(d, toPublic, e.key);
    KeysMembers(d, e.key);
    forall v ensures (e.key, v) in d <==> (e.key, Some(v)) in values {
      DropNoneMembers(values, e.key, v);
    }
  }
}
