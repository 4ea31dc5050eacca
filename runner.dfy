/**
 * The challenge runner (`bin/runchallenge.py`): read the queue
 * configuration, take the lock, and for each configured queue build and
 * call the validation or the scoring callable the configuration names.
 * What those callables do is user code; the model records each call.
 */
module Runner {
  import opened Wrappers
  import opened Dicts
  import opened Platform
  import opened Seqs
  import opened Config

  /**
   * A queue as the runner reads it: the validation and scoring entries name
   * the callables to build (`validator(syn, queueid, goldstandard_path=...)`).
   */
  type RunnerQueue = Queue<string, string>

  /** One key/value pair of `evaluation_queue_maps`. */
  type MapEntry = (EvaluationRef, RunnerQueue)

  /** Building the named callable for a queue and calling it. */
  datatype Invocation = Invocation(callable: string, queueId: EvaluationRef, goldstandardPath: string)

  /** The call `command_validate` makes for one entry of the map. */
  function ValidationCall(entry: MapEntry): Invocation {
    Invocation(entry.1.validationFunc, entry.0, entry.1.goldstandardPath)
  }

  /** The call `command_score` makes for one entry of the map. */
  function ScoringCall(entry: MapEntry): Invocation {
    Invocation(entry.1.scoringFunc, entry.0, entry.1.goldstandardPath)
  }

  /** The calls made for `maps` when the first `n` return: those, and the one that raised if any. */
  function CallsMade(call: MapEntry -> Invocation, maps: Dict<EvaluationRef, RunnerQueue>, n: nat)
    : (r: seq<Invocation>)
    requires n <= |maps|
    ensures |r| == if n < |maps| then n + 1 else n
  {
    Map(call, maps[..if n < |maps| then n + 1 else n])
  }

  function Returns(raises: Invocation -> Option<string>, call: MapEntry -> Invocation)
    : MapEntry -> bool
  {
    entry => raises(call(entry)).None?
  }

  /**
   * The loop both commands share: call, for each entry of the map in order,
   * the callable `call` picks; an exception ends the loop.
   */
  method InvokeEach(inv: Callable<Invocation>, maps: Dict<EvaluationRef, RunnerQueue>,
                    call: MapEntry -> Invocation) returns (err: Option<string>)
    modifies inv
    ensures var n := TakeWhileCount(Returns(inv.raises, call), maps);
      && (err.None? <==> n == |maps|)
      && (err.Some? ==> err == inv.raises(call(maps[n])))
      && inv.calls == old(inv.calls) + CallsMade(call, maps, n)
  {
    ghost var n := TakeWhileCount(Returns(inv.raises, call), maps);
    ghost var calls0 := inv.calls;
    var i := 0;
    while i < |maps|
      invariant i <= n
      invariant inv.calls == calls0 + Map(call, maps[..i])
    {
      err := inv.Call(call(maps[i]));
      MapExtend(call, maps, i, calls0);
      if err.Some? {
        TakeWhileStop(Returns(inv.raises, call), maps, i);
        return;
      }
      TakeWhileStep(Returns(inv.raises, call), maps, i);
      i := i + 1;
    }
    assert maps[..i] == maps[..n];
    err := None;
  }

  /** `command_validate(syn, evaluation_queue_maps)`. */
  method CommandValidate(inv: Callable<Invocation>, maps: Dict<EvaluationRef, RunnerQueue>) returns (err: Option<string>)
    modifies inv
    ensures var n := TakeWhileCount(Returns(inv.raises, ValidationCall), maps);
      && (err.None? <==> n == |maps|)
      && (err.Some? ==> err == inv.raises(ValidationCall(maps[n])))
      && inv.calls == old(inv.calls) + CallsMade(ValidationCall, maps, n)
  {
    err := InvokeEach(inv, maps, ValidationCall);
  }

  /** `command_score(syn, evaluation_queue_maps)`. */
  method CommandScore(inv: Callable<Invocation>, maps: Dict<EvaluationRef, RunnerQueue>) returns (err: Option<string>)
    modifies inv
    ensures var n := TakeWhileCount(Returns(inv.raises, ScoringCall), maps);
      && (err.None? <==> n == |maps|)
      && (err.Some? ==> err == inv.raises(ScoringCall(maps[n])))
      && inv.calls == old(inv.calls) + CallsMade(ScoringCall, maps, n)
  {
    err := InvokeEach(inv, maps, ScoringCall);
  }

  /**
   * When every call returns, each queue of the map is called exactly once,
   * in the map's order, with its own callable and its own gold standard.
   */
  lemma {:induction false} EachQueueOnce(maps: Dict<EvaluationRef, RunnerQueue>, command: RunnerCommand,
                                         raises: Invocation -> Option<string>)
    requires DistinctKeys(maps)
    requires var call := CallOf(command); TakeWhileCount(Returns(raises, call), maps) == |maps|
    ensures var calls := CallsMade(CallOf(command), maps, |maps|);
      && |calls| == |maps|
      && (forall k :: 0 <= k < |maps| ==>
            calls[k].queueId == maps[k].0 && calls[k].goldstandardPath == maps[k].1.goldstandardPath
            && calls[k].callable == (if command == RunValidate then maps[k].1.validationFunc else maps[k].1.scoringFunc))
      && (forall j, k :: 0 <= j < |maps| && 0 <= k < |maps| && calls[j].queueId == calls[k].queueId ==> j == k)
  {
    var call := CallOf(command);
    var calls := CallsMade(call, maps, |maps|);
    assert maps[..|maps|] == maps;
    forall k | 0 <= k < |maps|
      ensures calls[k] == call(maps[k])
    {
      MapAt(call, maps, k);
    }
    forall j, k | 0 <= j < |maps| && 0 <= k < |maps| && calls[j].queueId == calls[k].queueId
      ensures j == k
    {
      DistinctKeysIndex(maps, j, k);
    }
  }

  /** `--validate` or `--score`: argparse requires exactly one of them. */
  datatype RunnerCommand = RunValidate | RunScore

  /** The call the chosen command makes for each entry. */
  function CallOf(command: RunnerCommand): MapEntry -> Invocation {
    if command == RunValidate then ValidationCall else ScoringCall
  }

  datatype RunnerArgs = RunnerArgs(adminUserIds: Option<seq<string>>, command: RunnerCommand)

  /** How the runner's `main` ends: a return code, or an exception that escapes it. */
  datatype RunnerExit = ReturnCode(code: int) | Escaped(message: string)

  /** The exit code for a lock held by another run: a temporary failure. */
  const LockedExitCode := 75

  /**
   * `main(args)` after login and after the configuration module is loaded:
   * `config` stands for `EVALUATION_QUEUES_CONFIG` and `lockFree` for
   * whether `acquire_lock_or_fail` succeeds. `admins` is the value the
   * default gives `args.admin_user_ids`, which nothing reads afterwards.
   */
  method RunnerMain(syn: Synapse, lock: ChallengeLock, inv: Callable<Invocation>, args: RunnerArgs,
              config: seq<QueueEntry<string, string>>, lockFree: bool)
    returns (exit: RunnerExit, admins: seq<string>)
    modifies lock, inv
    ensures admins == Admins(args.adminUserIds, syn.ownerId)
    ensures QueueMaps(config).Failure? ==>
              exit == Escaped(MissingKeys) && unchanged(lock) && unchanged(inv)
    ensures QueueMaps(config).Success? && !lockFree ==>
              exit == ReturnCode(LockedExitCode) && unchanged(lock) && unchanged(inv)
    ensures QueueMaps(config).Success? && lockFree ==>
              var maps := QueueMaps(config).value;
              var call := CallOf(args.command);
              var n := TakeWhileCount(Returns(inv.raises, call), maps);
              && inv.calls == old(inv.calls) + CallsMade(call, maps, n)
              && (n == |maps| ==> exit == ReturnCode(0) && !lock.held && lock.releases == old(lock.releases) + 1)
              && (n < |maps| ==> exit.Escaped? && Some(exit.message) == inv.raises(call(maps[n]))
                                 && lock.held && lock.releases == old(lock.releases))
  {
    admins := Admins(args.adminUserIds, syn.ownerId);
    var maps := BuildQueueMaps(config);
    if maps.Failure? {
      return Escaped(maps.error), admins;
    }
    if !lockFree {
      return ReturnCode(LockedExitCode), admins;
    }
    lock.Acquire();
    if args.command == RunValidate {
      var err := CommandValidate(inv, maps.value);
      if err.Some? {
        return Escaped(err.value), admins;
      }
    }
    if args.command == RunScore {
      var err := CommandScore(inv, maps.value);
      if err.Some? {
        return Escaped(err.value), admins;
      }
    }
    lock.Release();
    exit := ReturnCode(0);
  }
}
