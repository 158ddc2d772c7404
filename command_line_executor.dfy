/**
 * Python/CommandLineExecutor.py: validated command parameters, the retry
 * loop, and the list executors that count exit codes in the dict shared by
 * every executor and reduce it to one verdict.
 *
 * Python's subclassing is modelled by composition: each list executor owns a
 * `CommandListExecutor` (its `base`) holding the counting state. The
 * class-level dict `__allResults` is one `CountDict` object that every
 * executor is given, so counts from earlier runs, of any executor, stay in it.
 */
module CommandLineExecutor {
  import opened Results
  import opened Attempts
  import opened ReturnCodes

  datatype CommandParameter = CommandParameter(commandLine: string, timeout: int, retry: int)

  /**
   * The constructor's checks, in the order it makes them: a blank command
   * line, then a timeout below 1, then a retry count below 1.
   */
  function NewCommandParameter(commandLine: string, timeout: int, retry: int): (r: Result<CommandParameter>)
    ensures r.Ok? <==> commandLine != "" && timeout >= 1 && retry >= 1
    ensures r.Ok? ==> r.value == CommandParameter(commandLine, timeout, retry)
    ensures commandLine == "" ==> r == Err(BlankCommandLine)
    ensures commandLine != "" && timeout < 1 ==> r == Err(TimeoutBelowOne)
    ensures commandLine != "" && timeout >= 1 && retry < 1 ==> r == Err(RetryBelowOne)
  {
    if commandLine == "" then Err(BlankCommandLine)
    else if timeout < 1 then Err(TimeoutBelowOne)
    else if retry < 1 then Err(RetryBelowOne)
    else Ok(CommandParameter(commandLine, timeout, retry))
  }

  /**
   * Runs one command: up to `parameter.retry` attempts, retrying only after a
   * timeout. `attempts` is the number of processes started.
   */
  method ExecuteCommandLine(parameter: CommandParameter, outcomes: seq<Outcome>) returns (code: int, ghost attempts: nat)
    ensures IsReturnCode(outcomes, parameter.retry, code)
    ensures attempts <= parameter.retry || attempts == 0
    ensures || (attempts >= 1 && CompletedFirstAt(outcomes, parameter.retry, attempts - 1) && code == outcomes[attempts - 1].code)
            || (AllTimedOut(outcomes, parameter.retry) && code == -1 && attempts == if parameter.retry < 0 then 0 else parameter.retry)
  {
    var trialCounter := 0;
    while trialCounter < parameter.retry
      invariant trialCounter <= parameter.retry || trialCounter == 0
      invariant forall j: nat :: j < trialCounter ==> TimedOut(outcomes, j)
    {
      if !TimedOut(outcomes, trialCounter) {
        assert CompletedFirstAt(outcomes, parameter.retry, trialCounter);
        return outcomes[trialCounter].code, trialCounter + 1;
      }
      trialCounter := trialCounter + 1;
    }
    return -1, trialCounter;
  }

  /** The counting state the two list executors inherit. */
  class CommandListExecutor {
    /** The class-level dict of counts, the same object for every executor. */
    const allResults: CountDict
    var numOfCommandParameters: int

    constructor (allResults: CountDict)
      ensures this.allResults == allResults && numOfCommandParameters == 0
    {
      this.allResults := allResults;
      numOfCommandParameters := 0;
    }

    /** Counts one more occurrence of `key`; no other entry changes. */
    method IncrementAllResults(key: int)
      modifies allResults
      ensures allResults.counts == Increment(old(allResults.counts), key)
      ensures Total(allResults.counts) == Total(old(allResults.counts)) + 1
    {
      IncrementTotal(allResults.counts, key);
      if key !in allResults.counts {
        allResults.counts := allResults.counts[key := 1];
      } else {
        allResults.counts := allResults.counts[key := allResults.counts[key] + 1];
      }
    }

    /**
     * Reduces the shared counts to one verdict against the number of command
     * parameters of the last run, deleting entry 0 unless it returns 0.
     */
    method TallyingAllResults() returns (r: Result<int>)
      modifies allResults
      ensures Tallied(old(allResults.counts), numOfCommandParameters, allResults.counts, r)
      ensures r == Ok(0) <==> 0 in old(allResults.counts) && old(allResults.counts)[0] == numOfCommandParameters
    {
      if 0 !in allResults.counts {
        return Err(ZeroKeyMissing);
      }
      if allResults.counts[0] == numOfCommandParameters {
        return Ok(0);
      }
      allResults.counts := allResults.counts - {0};
      if allResults.counts == map[] {
        return Err(NoNonZeroCode);
      }
      var topOfCount := TopCount(allResults.counts);
      var key := HighestKeyWithCount(allResults.counts, topOfCount);
      TopKeyIsVerdict(allResults.counts, topOfCount, key);
      return Ok(key);
    }
  }

  /**
   * Runs every command (the thread pool is modelled as a map over the list,
   * which keeps its order), then counts all the results, then tallies.
   */
  class CommandListParallelExecutor {
    const base: CommandListExecutor

    constructor (allResults: CountDict)
      ensures fresh(base)
      ensures base.allResults == allResults && base.numOfCommandParameters == 0
    {
      base := new CommandListExecutor(allResults);
    }

    /**
     * `outcomes[i]` are the attempt outcomes of command `i`; the ghost
     * `codes` are the commands' return codes, one increment each.
     */
    method Execute(commandParameters: seq<CommandParameter>, outcomes: seq<seq<Outcome>>)
      returns (r: Result<int>, ghost codes: seq<int>)
      requires |outcomes| == |commandParameters|
      modifies base, base.allResults
      ensures commandParameters == [] ==>
        r == Err(CommandParametersNotSet) && codes == [] && unchanged(base, base.allResults)
      ensures commandParameters != [] ==>
        && base.numOfCommandParameters == |commandParameters|
        && |codes| == |commandParameters|
        && (forall i :: 0 <= i < |codes| ==> IsReturnCode(outcomes[i], commandParameters[i].retry, codes[i]))
        && Total(CountAll(old(base.allResults.counts), codes)) == Total(old(base.allResults.counts)) + |commandParameters|
        && Tallied(CountAll(old(base.allResults.counts), codes), |commandParameters|, base.allResults.counts, r)
    {
      if commandParameters == [] {
        return Err(CommandParametersNotSet), [];
      }
      base.numOfCommandParameters := |commandParameters|;

      var allFutureResults := [];
      while |allFutureResults| < |commandParameters|
        modifies {}
        invariant |allFutureResults| <= |commandParameters|
        invariant forall i :: 0 <= i < |allFutureResults| ==>
          IsReturnCode(outcomes[i], commandParameters[i].retry, allFutureResults[i])
      {
        var i := |allFutureResults|;
        var code, _ := ExecuteCommandLine(commandParameters[i], outcomes[i]);
        allFutureResults := allFutureResults + [code];
      }

      var counted := 0;
      while counted < |allFutureResults|
        invariant counted <= |allFutureResults|
        invariant base.allResults.counts == CountAll(old(base.allResults.counts), allFutureResults[..counted])
        invariant base.numOfCommandParameters == |commandParameters|
      {
        CountAllSnoc(old(base.allResults.counts), allFutureResults[..counted], allFutureResults[counted]);
        assert allFutureResults[..counted + 1] == allFutureResults[..counted] + [allFutureResults[counted]];
        base.IncrementAllResults(allFutureResults[counted]);
        counted := counted + 1;
      }
      assert allFutureResults[..counted] == allFutureResults;
      codes := allFutureResults;
      CountAllTotal(old(base.allResults.counts), codes);
      r := base.TallyingAllResults();
    }
  }

  /**
   * Runs the commands one after another, counting each result, and stops
   * right after the first result at or above the error threshold, when one
   * has been set.
   */
  class CommandListSerialExecutor {
    const base: CommandListExecutor
    /** None until the setter is called; the setter admits no negative value. */
    var thresholdOfError: Option<nat>

    constructor (allResults: CountDict)
      ensures fresh(base)
      ensures base.allResults == allResults && base.numOfCommandParameters == 0
      ensures thresholdOfError == None
    {
      base := new CommandListExecutor(allResults);
      thresholdOfError := None;
    }

    /** The property setter: a negative threshold raises and changes nothing. */
    method SetThresholdOfError(value: int) returns (r: Result<()>)
      modifies this
      ensures value < 0 ==> r == Err(NegativeThreshold) && thresholdOfError == old(thresholdOfError)
      ensures value >= 0 ==> r == Ok(()) && thresholdOfError == Some(value)
    {
      if value < 0 {
        return Err(NegativeThreshold);
      }
      thresholdOfError := Some(value);
      return Ok(());
    }

    /** Whether a run stops after `returnCode`. A negative code, -1 included, never stops a run. */
    predicate IsDoStopAtError(returnCode: int)
      reads this
      ensures IsDoStopAtError(returnCode) ==> thresholdOfError.Some? && returnCode >= thresholdOfError.value >= 0
      ensures thresholdOfError.Some? && returnCode >= thresholdOfError.value ==> IsDoStopAtError(returnCode)
    {
      match thresholdOfError
      case None => false
      case Some(threshold) => returnCode >= threshold
    }

    /**
     * `outcomes[i]` are the attempt outcomes of command `i`; the ghost
     * `codes` are the return codes of the commands that ran, in list order.
     * The tally compares the zero count with the length of the whole list,
     * not with the number of commands that ran.
     */
    method Execute(commandParameters: seq<CommandParameter>, outcomes: seq<seq<Outcome>>)
      returns (r: Result<int>, ghost codes: seq<int>)
      requires |outcomes| == |commandParameters|
      modifies base, base.allResults
      ensures commandParameters == [] ==>
        r == Err(CommandParametersNotSet) && codes == [] && unchanged(base, base.allResults)
      ensures commandParameters != [] ==> base.numOfCommandParameters == |commandParameters|
      ensures commandParameters != [] ==> 1 <= |codes| <= |commandParameters|
      ensures commandParameters != [] ==>
        forall i :: 0 <= i < |codes| ==> IsReturnCode(outcomes[i], commandParameters[i].retry, codes[i])
      ensures commandParameters != [] ==> forall i :: 0 <= i < |codes| - 1 ==> !IsDoStopAtError(codes[i])
      ensures commandParameters != [] && |codes| < |commandParameters| ==> IsDoStopAtError(codes[|codes| - 1])
      ensures commandParameters != [] ==>
        Total(CountAll(old(base.allResults.counts), codes)) == Total(old(base.allResults.counts)) + |codes|
      ensures commandParameters != [] ==>
        Tallied(CountAll(old(base.allResults.counts), codes), |commandParameters|, base.allResults.counts, r)
    {
      if commandParameters == [] {
        return Err(CommandParametersNotSet), [];
      }
      base.numOfCommandParameters := |commandParameters|;
      ghost var before := base.allResults.counts;

      codes := [];
      var index := 0;
      while index < |commandParameters|
        invariant index <= |commandParameters| && |codes| == index
        invariant forall i :: 0 <= i < index ==> IsReturnCode(outcomes[i], commandParameters[i].retry, codes[i])
        invariant forall i :: 0 <= i < index ==> !IsDoStopAtError(codes[i])
        invariant base.allResults.counts == CountAll(before, codes)
        invariant base.numOfCommandParameters == |commandParameters|
      {
        var returnCode, _ := ExecuteCommandLine(commandParameters[index], outcomes[index]);
        CountAllSnoc(before, codes, returnCode);
        base.IncrementAllResults(returnCode);
        codes := codes + [returnCode];
        if IsDoStopAtError(returnCode) {
          break;
        }
        index := index + 1;
      }
      CountAllTotal(before, codes);
      r := base.TallyingAllResults();
    }
  }

  /**
   * Two executors made one after the other share the counts. After a first
   * run of one succeeding command returns 0, the count for 0 is 2 while the
   * second run has one command, so entry 0 is deleted, nothing is left, and
   * the second run raises StopIteration.
   */
  method SecondRunSeesFirstRunCounts() {
    var allResults := new CountDict(map[0 := 0]);
    var p := CommandParameter("true", 10, 1);
    ghost var c1, c2;

    var first := new CommandListParallelExecutor(allResults);
    var r1;
    r1, c1 := first.Execute([p], [[Exited(0)]]);
    assert IsReturnCode([Exited(0)], 1, 0) by {
      assert CompletedFirstAt([Exited(0)], 1, 0);
    }
    ReturnCodeUnique([Exited(0)], 1, c1[0], 0);
    assert c1 == [0];
    assert CountAll(map[0 := 0], [0]) == map[0 := 1] by {
      assert [0][..0] == [];
    }
    assert r1 == Ok(0);

    var second := new CommandListParallelExecutor(allResults);
    var r2;
    r2, c2 := second.Execute([p], [[Exited(0)]]);
    ReturnCodeUnique([Exited(0)], 1, c2[0], 0);
    assert c2 == [0];
    assert CountAll(map[0 := 1], [0]) == map[0 := 2] by {
      assert [0][..0] == [];
    }
    assert map[0 := 2] - {0} == map[];
    assert r2 == Err(NoNonZeroCode);
  }

  /**
   * With threshold 0 a serial run stops after its first command even when it
   * exits 0. The zero count, 1, is then compared with the length of the whole
   * list, 2, so entry 0 is deleted and, on a fresh `{0: 0}`, nothing is left:
   * the run raises StopIteration. The dict is the caller's, as the class
   * attribute exists before any executor.
   */
  method ZeroThresholdStopsAtSuccess(allResults: CountDict)
    modifies allResults
  {
    allResults.counts := map[0 := 0];
    var serial := new CommandListSerialExecutor(allResults);
    var setResult := serial.SetThresholdOfError(0);
    var p := CommandParameter("true", 10, 1);
    var r;
    ghost var codes;
    r, codes := serial.Execute([p, p], [[Exited(0)], [Exited(0)]]);
    assert IsReturnCode([Exited(0)], 1, 0) by {
      assert CompletedFirstAt([Exited(0)], 1, 0);
    }
    ReturnCodeUnique([Exited(0)], 1, codes[0], 0);
    assert codes == [0];
    assert CountAll(map[0 := 0], [0]) == map[0 := 1] by {
      assert [0][..0] == [];
    }
    assert map[0 := 1] - {0} == map[];
    assert r == Err(NoNonZeroCode);
  }
}
