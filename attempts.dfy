/**
 * The retry loop's vocabulary. Starting a shell process and waiting for it is
 * replaced by an oracle: a sequence that gives, attempt by attempt, whether
 * the process finished within its timeout and with which exit code. An
 * attempt past the end of the sequence times out.
 */
module Attempts {

  datatype Outcome = Timeout | Exited(code: int)

  /** Attempt `j` (0-based) ran into its timeout. */
  predicate TimedOut(outcomes: seq<Outcome>, j: nat) {
    j >= |outcomes| || outcomes[j].Timeout?
  }

  /** Attempt `i` is within the first `retry` attempts, completed, and every earlier one timed out. */
  ghost predicate CompletedFirstAt(outcomes: seq<Outcome>, retry: int, i: nat) {
    && i < retry
    && !TimedOut(outcomes, i)
    && forall j: nat :: j < i ==> TimedOut(outcomes, j)
  }

  /** Each of the first `retry` attempts timed out (vacuous when `retry <= 0`). */
  ghost predicate AllTimedOut(outcomes: seq<Outcome>, retry: int) {
    forall j: nat :: j < retry ==> TimedOut(outcomes, j)
  }

  /**
   * `code` is what the retry loop returns: the exit code of the first attempt
   * that completes, whether zero or not, or -1 when all `retry` attempts time out.
   */
  ghost predicate IsReturnCode(outcomes: seq<Outcome>, retry: int, code: int) {
    || (exists i: nat :: CompletedFirstAt(outcomes, retry, i) && code == outcomes[i].code)
    || (AllTimedOut(outcomes, retry) && code == -1)
  }

  /** The retry loop's result is determined by the outcomes: at most one first completion exists. */
  lemma ReturnCodeUnique(outcomes: seq<Outcome>, retry: int, c1: int, c2: int)
    requires IsReturnCode(outcomes, retry, c1) && IsReturnCode(outcomes, retry, c2)
    ensures c1 == c2
  {
    if i1: nat :| CompletedFirstAt(outcomes, retry, i1) && c1 == outcomes[i1].code {
      if i2: nat :| CompletedFirstAt(outcomes, retry, i2) && c2 == outcomes[i2].code {
        assert !(i1 < i2) && !(i2 < i1);
      }
    }
  }
}
