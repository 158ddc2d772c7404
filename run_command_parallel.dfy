/**
 * Python/RunCommandParallel.py: the free-function version. Commands are
 * plain (command line, timeout, retry) triples with no validation; the counts
 * live in a dict made afresh for each batch and handed to the tally, which
 * removes entry 0 from the caller's dict.
 */
module RunCommandParallel {
  import opened Results
  import opened Attempts
  import opened ReturnCodes

  /** (command line, timeout in seconds, number of attempts) */
  type CommandTuple = (string, int, int)

  /**
   * Runs one command: the exit code of the first attempt that completes
   * within `retry` attempts, else -1. A retry count below 1 makes no attempt.
   */
  function ExecuteCommandLine(commandParameter: CommandTuple, outcomes: seq<Outcome>): (code: int)
    ensures IsReturnCode(outcomes, commandParameter.2, code)
  {
    var (_, _, retry) := commandParameter;
    TryFrom(outcomes, retry, 0)
  }

  /** The loop from attempt `trialCounter` on, every earlier attempt having timed out. */
  function TryFrom(outcomes: seq<Outcome>, retry: int, trialCounter: nat): (code: int)
    requires forall j: nat :: j < trialCounter ==> TimedOut(outcomes, j)
    ensures IsReturnCode(outcomes, retry, code)
    decreases retry - trialCounter
  {
    if trialCounter >= retry then
      -1
    else if !TimedOut(outcomes, trialCounter) then
      assert CompletedFirstAt(outcomes, retry, trialCounter);
      outcomes[trialCounter].code
    else
      TryFrom(outcomes, retry, trialCounter + 1)
  }

  /** What the worker pool hands back: every command's return code, in list order. */
  function AllFutureResults(commandParameters: seq<CommandTuple>, outcomes: seq<seq<Outcome>>): (codes: seq<int>)
    requires |outcomes| == |commandParameters|
    ensures |codes| == |commandParameters|
    ensures forall i :: 0 <= i < |codes| ==> IsReturnCode(outcomes[i], commandParameters[i].2, codes[i])
  {
    seq(|commandParameters|, i requires 0 <= i < |commandParameters| => ExecuteCommandLine(commandParameters[i], outcomes[i]))
  }

  /** Counts one more occurrence of `key` in the caller's dict; no other entry changes. */
  method IncrementDict(dictionary: CountDict, key: int)
    modifies dictionary
    ensures dictionary.counts == Increment(old(dictionary.counts), key)
    ensures Total(dictionary.counts) == Total(old(dictionary.counts)) + 1
  {
    IncrementTotal(dictionary.counts, key);
    if key !in dictionary.counts {
      dictionary.counts := dictionary.counts[key := 1];
    } else {
      dictionary.counts := dictionary.counts[key := dictionary.counts[key] + 1];
    }
  }

  /**
   * Runs every command, then counts the results into a new dict `{0: 0}`:
   * the dict always has entry 0 and its counts add up to the number of commands.
   */
  method ExecuteAllCommandLines(commandParameters: seq<CommandTuple>, outcomes: seq<seq<Outcome>>)
    returns (allResults: CountDict)
    requires |outcomes| == |commandParameters|
    ensures fresh(allResults)
    ensures allResults.counts == CountAll(map[0 := 0], AllFutureResults(commandParameters, outcomes))
    ensures 0 in allResults.counts
    ensures Total(allResults.counts) == |commandParameters|
  {
    var allFutureResults := AllFutureResults(commandParameters, outcomes);
    allResults := new CountDict(map[0 := 0]);
    var counted := 0;
    while counted < |allFutureResults|
      invariant counted <= |allFutureResults|
      invariant allResults.counts == CountAll(map[0 := 0], allFutureResults[..counted])
    {
      CountAllSnoc(map[0 := 0], allFutureResults[..counted], allFutureResults[counted]);
      assert allFutureResults[..counted + 1] == allFutureResults[..counted] + [allFutureResults[counted]];
      IncrementDict(allResults, allFutureResults[counted]);
      counted := counted + 1;
    }
    assert allFutureResults[..counted] == allFutureResults;
    CountAllEntry(map[0 := 0], allFutureResults, 0);
    CountAllTotal(map[0 := 0], allFutureResults);
    assert Total(map[0 := 0]) == 0 by {
      TotalRemove(map[0 := 0], 0);
      assert map[0 := 0] - {0} == map[];
    }
  }

  /**
   * Reduces the caller's dict to one verdict: 0 when the zero count equals
   * `numOfCommandLines`, otherwise entry 0 is popped from the dict and the
   * largest code among those with the highest count is returned.
   */
  method TallyingAllResults(returnCodeDict: CountDict, numOfCommandLines: int) returns (r: Result<int>)
    modifies returnCodeDict
    ensures Tallied(old(returnCodeDict.counts), numOfCommandLines, returnCodeDict.counts, r)
    ensures r == Ok(0) <==> 0 in old(returnCodeDict.counts) && old(returnCodeDict.counts)[0] == numOfCommandLines
  {
    if 0 !in returnCodeDict.counts {
      return Err(ZeroKeyMissing);
    }
    if returnCodeDict.counts[0] == numOfCommandLines {
      return Ok(0);
    }
    returnCodeDict.counts := returnCodeDict.counts - {0};
    if returnCodeDict.counts == map[] {
      return Err(NoNonZeroCode);
    }
    var topOfCount := TopCount(returnCodeDict.counts);
    var key := HighestKeyWithCount(returnCodeDict.counts, topOfCount);
    TopKeyIsVerdict(returnCodeDict.counts, topOfCount, key);
    return Ok(key);
  }

  /**
   * The module's own pipeline, counting then tallying one batch, never
   * raises: it gives 0 exactly when every command returned 0, and otherwise
   * the most frequent non-zero return code, ties going to the larger code.
   */
  method RunBatch(commandParameters: seq<CommandTuple>, outcomes: seq<seq<Outcome>>) returns (verdict: int)
    requires |outcomes| == |commandParameters|
    ensures var codes := AllFutureResults(commandParameters, outcomes);
      && (verdict == 0 <==> forall i :: 0 <= i < |codes| ==> codes[i] == 0)
      && (verdict != 0 ==> verdict in codes)
      && (verdict != 0 ==> forall c :: c != 0 ==> multiset(codes)[c] <= multiset(codes)[verdict])
      && (verdict != 0 ==> forall c :: c != 0 && c > verdict ==> multiset(codes)[c] < multiset(codes)[verdict])
  {
    var returnCodeDict := ExecuteAllCommandLines(commandParameters, outcomes);
    ghost var codes := AllFutureResults(commandParameters, outcomes);
    FreshCountsTally(codes);
    var r := TallyingAllResults(returnCodeDict, |commandParameters|);
    if r.Ok? && r.value != 0 {
      BatchVerdict(codes, r.value);
    }
    verdict := r.value;
  }
}
