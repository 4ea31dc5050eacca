/**
 * The evaluation queue configuration both harness entry points read: the
 * list `EVALUATION_QUEUES_CONFIG` of queue entries, each of which must name
 * the queue `id`, its `validation_func`, its `scoring_func` and its
 * `goldstandard_path`, and the dict `evaluation_queue_maps` built from it,
 * keyed by `id`.
 */
module Config {
  import opened Wrappers
  import opened Dicts
  import opened Platform

  /** One entry of the configuration list; any of its four keys may be missing. */
  datatype QueueEntry<V, S> = QueueEntry(
    id: Option<EvaluationRef>, validationFunc: Option<V>, scoringFunc: Option<S>,
    goldstandardPath: Option<string>)

  /** An entry with all four keys present. */
  datatype Queue<V, S> = Queue(id: EvaluationRef, validationFunc: V, scoringFunc: S, goldstandardPath: string)

  predicate Complete<V, S>(c: QueueEntry<V, S>) {
    c.id.Some? && c.validationFunc.Some? && c.scoringFunc.Some? && c.goldstandardPath.Some?
  }

  function QueueOf<V, S>(c: QueueEntry<V, S>): Queue<V, S>
    requires Complete(c)
  {
    Queue(c.id.value, c.validationFunc.value, c.scoringFunc.value, c.goldstandardPath.value)
  }

  /** `admin_user_ids`: the ids given on the command line, or else the logged-in user alone. */
  function Admins(given: Option<seq<string>>, ownerId: string): seq<string> {
    if given.None? then [ownerId] else given.value
  }

  /** The KeyError text; the two literal halves are joined without a space. */
  const MissingKeys := "You must specify 'id', 'validation_func', 'scoring_func', "
                       + "'goldstandard_path' for each of your evaluation queues"
                       + "in your EVALUATION_QUEUES_CONFIG"

  /** The `(id, queue)` assignments the configuration loop makes, in order. */
  function QueuePairs<V, S>(cs: seq<QueueEntry<V, S>>): (r: Dict<EvaluationRef, Queue<V, S>>)
    requires forall i :: 0 <= i < |cs| ==> Complete(cs[i])
    ensures |r| == |cs|
  {
    if cs == [] then []
    else
      var c := cs[|cs| - 1];
      assert Complete(c);
      QueuePairs(cs[..|cs| - 1]) + [(c.id.value, QueueOf(c))]
  }

  /** `evaluation_queue_maps`, or the KeyError when an entry lacks a key. */
  function QueueMaps<V, S>(cs: seq<QueueEntry<V, S>>): Result<Dict<EvaluationRef, Queue<V, S>>, string> {
    if forall i :: 0 <= i < |cs| ==> Complete(cs[i]) then Success(FromPairs(QueuePairs(cs)))
    else Failure(MissingKeys)
  }

  /**
   * The configuration loop: assign each entry to its id, in order, raising
   * the KeyError at the first entry that lacks a key. The dict is thrown
   * away with the exception, so whether an entry is assigned before or
   * after its keys are checked cannot be observed.
   */
  method BuildQueueMaps<V, S>(config: seq<QueueEntry<V, S>>) returns (r: Result<Dict<EvaluationRef, Queue<V, S>>, string>)
    ensures r == QueueMaps(config)
    ensures r.Failure? <==> exists i :: 0 <= i < |config| && !Complete(config[i])
    ensures r.Failure? ==> r.error == MissingKeys
  {
    var maps: Dict<EvaluationRef, Queue<V, S>> := [];
    var i := 0;
    while i < |config|
      invariant i <= |config|
      invariant forall j :: 0 <= j < i ==> Complete(config[j])
      invariant maps == FromPairs(QueuePairs(config[..i]))
    {
      var c := config[i];
      if !Complete(c) {
        return Failure(MissingKeys);
      }
      QueueMapsStep(config, i);
      maps := Put(maps, c.id.value, QueueOf(c));
      i := i + 1;
    }
    assert config[..i] == config;
    r := Success(maps);
  }

  /** One more complete entry assigns its queue to its id. */
  lemma QueueMapsStep<V, S>(config: seq<QueueEntry<V, S>>, i: nat)
    requires i < |config| && Complete(config[i])
    requires forall j :: 0 <= j < i ==> Complete(config[j])
    ensures forall j :: 0 <= j < i + 1 ==> Complete(config[j])
    ensures FromPairs(QueuePairs(config[..i + 1]))
         == Put(FromPairs(QueuePairs(config[..i])), config[i].id.value, QueueOf(config[i]))
  {
    assert config[..i + 1][..i] == config[..i];
    UpdateSnoc([], QueuePairs(config[..i]), (config[i].id.value, QueueOf(config[i])));
  }

  /** The keys of the map are exactly the ids the configuration names. */
  lemma {:induction false} QueueMapsKeys<V, S>(cs: seq<QueueEntry<V, S>>, k: EvaluationRef)
    requires QueueMaps(cs).Success?
    ensures k in Keys(QueueMaps(cs).value) <==> exists i :: 0 <= i < |cs| && cs[i].id == Some(k)
  {
    PairsKeys(cs, k);
  }

  lemma {:induction false} PairsKeys<V, S>(cs: seq<QueueEntry<V, S>>, k: EvaluationRef)
    requires forall i :: 0 <= i < |cs| ==> Complete(cs[i])
    ensures k in Keys(QueuePairs(cs)) <==> exists i :: 0 <= i < |cs| && cs[i].id == Some(k)
  {
    if cs != [] {
      var init := cs[..|cs| - 1];
      PairsKeys(init, k);
      KeysAppend(QueuePairs(init), [(cs[|cs| - 1].id.value, QueueOf(cs[|cs| - 1]))]);
      if exists i :: 0 <= i < |cs| && cs[i].id == Some(k) {
        var i :| 0 <= i < |cs| && cs[i].id == Some(k);
        if i < |cs| - 1 {
          assert init[i] == cs[i];
        }
      }
      if exists i :: 0 <= i < |init| && init[i].id == Some(k) {
        var i :| 0 <= i < |init| && init[i].id == Some(k);
        assert cs[i] == init[i];
      }
    }
  }

  /**
   * Each id maps to the last entry that names it: a later entry with the
   * same id replaces an earlier one.
   */
  lemma {:induction false} QueueMapsLast<V, S>(cs: seq<QueueEntry<V, S>>, i: nat)
    requires QueueMaps(cs).Success? && i < |cs|
    requires forall j :: i < j < |cs| ==> cs[j].id != cs[i].id
    ensures Get(QueueMaps(cs).value, cs[i].id.value) == Some(QueueOf(cs[i]))
  {
    PairsLast(cs, i);
  }

  lemma {:induction false} PairsLast<V, S>(cs: seq<QueueEntry<V, S>>, i: nat)
    requires forall j :: 0 <= j < |cs| ==> Complete(cs[j])
    requires i < |cs|
    requires forall j :: i < j < |cs| ==> cs[j].id != cs[i].id
    ensures Get(FromPairs(QueuePairs(cs)), cs[i].id.value) == Some(QueueOf(cs[i]))
  {
    var init, last := cs[..|cs| - 1], cs[|cs| - 1];
    UpdateSnoc([], QueuePairs(init), (last.id.value, QueueOf(last)));
    GetPut(FromPairs(QueuePairs(init)), last.id.value, QueueOf(last), cs[i].id.value);
    if i < |cs| - 1 {
      assert init[i] == cs[i];
      PairsLast(init, i);
    }
  }
}
