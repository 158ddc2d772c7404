# PersonalTools command runner, modelled in Dafny

This project models the batch command runner in the `Python` directory of
PersonalTools. It covers two files.

`CommandLineExecutor.py` has these parts:
- A validated `CommandParameter`, holding a command line, a timeout and a retry count.
- A retry loop that runs one command up to `retry` times. It retries only after a timeout and returns the first exit code it gets, or -1.
- A reader that turns the lines of a file into parameters, written `command;timeout;retry`.
- A parallel executor and a serial executor. Both count exit codes in a dict and reduce the counts to one verdict. A serial run can stop early at an error threshold.

`RunCommandParallel.py` is the same pipeline written as free functions over `(command, timeout, retry)` tuples.

The verdict of a batch works like this:
- It is 0 when the zero count equals the number of commands.
- Otherwise entry 0 is deleted from the dict.
- Then the most frequent remaining code is returned. A tie goes to the larger code.

Modules:
- `Results`: the exceptions the code raises, as an `Error` value in a `Result`.
- `Attempts`: the outcome of each attempt (timeout, or exit with a code) and what the retry loop must return (`IsReturnCode`).
- `ReturnCodes`: the count dict. A `CountDict` object stands for a Python dict, so that a change made through one reference is seen through every other. The module also holds the pure map functions (`Increment`, `CountAll`, `Total`), the verdict (`IsVerdict`), what a tally does (`Tallied`), and the two loops of the tally.
- `CommandLineExecutor`: the parameter, the retry loop and the three executor classes.
  - Python's subclassing becomes composition. Each list executor owns a `CommandListExecutor` as its `base`.
  - The class attribute `__allResults` is a single `CountDict` that every executor is given.
  - The client method `SecondRunSeesFirstRunCounts` shows what sharing that dict leads to. Two parallel executors each run one successful command. The first returns 0 and leaves a count of 1 for code 0. The second then finds a count of 2 against one command. It deletes entry 0, finds nothing left, and raises StopIteration.
- `CommandListReader`: `read` on the lines of the file, with these helpers:
  - Python's `str.strip` (with the exact `isspace` code points)
  - `str.split(';')`
  - `int()` on decimal text. It skips the whitespace `int()` skips, which is `isspace` without U+001C..U+001F.
- `RunCommandParallel`: the free functions and the two script lines that run a batch.

How I/O becomes data:
- Starting a process and waiting for it becomes an oracle. `outcomes[j]` says whether attempt `j` timed out or exited, and with which code. An attempt past the end of the sequence times out.
- A file becomes its sequence of lines.
- Each exception becomes an `Err` value.

Behaviour of the code that is easy to misread:
- There is no backoff or delay between attempts.
- An exit code of -1 does not stop a serial run. The threshold cannot be negative and the test is `returnCode >= threshold`, so only codes at or above a non-negative threshold stop it (`IsDoStopAtError`).
- The counts are never reset between runs. They live in one class-level dict.
- A tally is not repeatable. A tally that does not return 0 deletes entry 0, and the next tally then raises KeyError (`TallyNotRepeatable`).
- The serial executor compares the zero count against the length of the whole list, even after it stopped early.
- With threshold 0, a serial run stops after its first command even when that command exits 0. The zero count is then 1 against the whole list's length. With a fresh `{0: 0}` and two commands, entry 0 is deleted and the run raises StopIteration (`ZeroThresholdStopsAtSuccess`).
- A threshold is an optional value (`None` until the setter is called), instead of a flag plus a value.

## Model

| member | source | states |
|---|---|---|
| CommandLineExecutor.NewCommandParameter | Python/CommandLineExecutor.py:12-24 | Construction succeeds exactly when the command line is non-blank, timeout >= 1 and retry >= 1. A success stores the three values. The three ValueErrors are checked in source order: blank line, then timeout, then retry. |
| CommandLineExecutor.ExecuteCommandLine | Python/CommandLineExecutor.py:27-38 | The result is the exit code of the first attempt that completed within `retry` attempts, whether zero or not, and every earlier attempt timed out. If all attempts time out the result is -1, after exactly `retry` attempts (none when retry < 1). |
| Attempts.ReturnCodeUnique | Python/CommandLineExecutor.py:27-38 | The retry loop's result is fully determined by the attempt outcomes: two codes that both meet its specification are equal. |
| CommandLineExecutor.CommandListExecutor.constructor | Python/CommandLineExecutor.py:55-57 | A new executor uses the given shared count dict, and its command count starts at 0. |
| CommandLineExecutor.CommandListExecutor.IncrementAllResults | Python/CommandLineExecutor.py:59-63 | The shared dict gets one more occurrence of the key: a new entry with count 1, or the old count plus 1. No other entry changes, and the sum of the counts grows by exactly 1. |
| CommandLineExecutor.CommandListExecutor.TallyingAllResults | Python/CommandLineExecutor.py:65-82 | With no entry 0 the tally raises KeyError. A zero count equal to the command count gives 0 and changes nothing. Otherwise entry 0 is deleted, StopIteration is raised if nothing is left, and else the returned key has the maximal count and no larger key has that count. The result is 0 exactly in the first success case. |
| CommandLineExecutor.CommandListParallelExecutor.constructor | Python/CommandLineExecutor.py:84 | A parallel executor starts on the shared dict. Its own command-count state is new and shared with no other executor, and the count starts at 0. |
| CommandLineExecutor.CommandListParallelExecutor.Execute | Python/CommandLineExecutor.py:85-98 | An empty list raises ValueError and changes nothing. Otherwise every command runs; each code is what the retry loop returns for that command. Each code is counted once into the shared dict, which grows in total by the number of commands. The result is the tally of the counts so far against the list length. |
| CommandLineExecutor.CommandListSerialExecutor.constructor | Python/CommandLineExecutor.py:100-101 | A serial executor starts on the shared dict, with no error threshold set. Its own command-count state is new and shared with no other executor, and the count starts at 0. |
| CommandLineExecutor.CommandListSerialExecutor.SetThresholdOfError | Python/CommandLineExecutor.py:107-113 | A negative value raises ValueError and leaves the threshold as it was. Any other value becomes the threshold. |
| CommandLineExecutor.CommandListSerialExecutor.IsDoStopAtError | Python/CommandLineExecutor.py:130-134 | A run stops only when a threshold is set and the code is at or above it; it always stops then. A negative code, -1 included, never stops a run. |
| CommandLineExecutor.CommandListSerialExecutor.Execute | Python/CommandLineExecutor.py:115-128 | An empty list raises ValueError. Otherwise commands run in order and each code is counted. The run ends after the first code that meets the threshold, or after the last command; no earlier code met it. The tally compares against the length of the whole list. |
| CommandListReader.Read | Python/CommandLineExecutor.py:41-53 | The read loop gives exactly `ParseLines` of the file's lines. |
| CommandListReader.ParseLinesOk | Python/CommandLineExecutor.py:45-53 | Reading succeeds exactly when every non-blank stripped line parses. It then gives one parameter per non-blank line, in line order. |
| CommandListReader.ParseLinesErr | Python/CommandLineExecutor.py:45-53 | A failed read reports the error of the first non-blank line that does not parse; every non-blank line before it parses. |
| CommandListReader.ReadRoundTrip | Python/CommandLineExecutor.py:41-53 | A file written as one `command;timeout;retry` line per valid parameter reads back as the same list. This holds when no command line contains ';' or starts with whitespace. |
| CommandListReader.FormatStripped | Python/CommandLineExecutor.py:46-47 | Such a written line is not blank and stripping leaves it unchanged. |
| CommandListReader.ParseFields | Python/CommandLineExecutor.py:51-52 | A line that does not split into three fields raises ValueError. A parsed parameter always has a non-blank command line, timeout >= 1 and retry >= 1. |
| CommandListReader.ParseFieldsRoundTrip | Python/CommandLineExecutor.py:51-52 | Parsing the written form of a valid parameter whose command line has no ';' gives the parameter back. |
| CommandListReader.StripSpec | Python/CommandLineExecutor.py:46 | `strip()` returns a slice of the line. Everything outside the slice is whitespace, and the slice is empty or starts and ends with non-whitespace. |
| CommandListReader.StripLeftSpec | Python/CommandLineExecutor.py:46 | Stripping the left end removes a prefix made only of whitespace and stops at the first non-whitespace character. |
| CommandListReader.StripRightSpec | Python/CommandLineExecutor.py:46 | Stripping the right end removes a suffix made only of whitespace and stops at the last non-whitespace character. |
| CommandListReader.StripUnchanged | Python/CommandLineExecutor.py:46 | A line whose ends are not whitespace is unchanged by `strip()`, and a number whose ends are not whitespace is unchanged by `int()`'s skipping. |
| CommandListReader.Split | Python/CommandLineExecutor.py:51 | `split(';')` gives at least one field, no field contains ';', and joining the fields with ';' gives the line back. |
| CommandListReader.SplitJoin | Python/CommandLineExecutor.py:51 | Splitting undoes joining for fields that contain no ';'. |
| CommandListReader.DigitsValueOfNat | Python/CommandLineExecutor.py:52 | The decimal digits of a natural number form a valid integer literal that denotes that number. |
| CommandListReader.IntRejectsSeparator | Python/CommandLineExecutor.py:52 | `int()` skips less than `strip()`: `strip()` removes U+001C in front of "5", while `int()` of that text fails. |
| CommandListReader.ParseIntRoundTrip | Python/CommandLineExecutor.py:52 | `int()` of the decimal form of any integer, negative included, gives the integer back. The interpreter's digit limit is not modelled (see below). |
| ReturnCodes.CountDict.constructor | Python/RunCommandParallel.py:24 | A new dict holds exactly the given entries. |
| ReturnCodes.Increment | Python/RunCommandParallel.py:30-34 | The keys after one increment are the old keys plus the code. The code's count is its old count (0 if absent) plus 1, and every other entry is unchanged. |
| ReturnCodes.IncrementTotal | Python/RunCommandParallel.py:30-34 | Each increment adds exactly 1 to the sum of the counts. |
| ReturnCodes.CountAllEntry | Python/RunCommandParallel.py:25-26 | After counting a list of codes, a key is present exactly when it was present before or occurs in the list. Its count grew by its number of occurrences. |
| ReturnCodes.CountAllTotal | Python/RunCommandParallel.py:25-26 | Counting a list of codes adds the list's length to the sum of the counts. |
| ReturnCodes.TopCount | Python/CommandLineExecutor.py:75-76 | On a non-empty dict the top count is the count of some entry, and no count exceeds it. |
| ReturnCodes.HighestKeyWithCount | Python/CommandLineExecutor.py:79-82 | The key found has the top count, and every key with that count is at most it. |
| ReturnCodes.TopKeyIsVerdict | Python/CommandLineExecutor.py:74-82 | The two sorted scans together give the verdict: a maximal count, with no larger key having that count. |
| ReturnCodes.VerdictUnique | Python/CommandLineExecutor.py:79-82 | The tie-break makes the verdict unique: two verdicts of one dict are equal. |
| ReturnCodes.TallyNotRepeatable | Python/CommandLineExecutor.py:69-72 | After a tally that returned a non-zero verdict, a second tally on the same dict raises KeyError and changes nothing. |
| ReturnCodes.NonZeroCodeExists | Python/RunCommandParallel.py:40-47 | When the counts add up to the number of commands and the zero count differs from it, some non-zero code has a positive count. So the top-count lookup does not meet an empty dict. |
| ReturnCodes.ZeroCountIsLength | Python/RunCommandParallel.py:40-41 | A list's count of 0 equals its length exactly when every code in it is 0. |
| ReturnCodes.FreshCountsTally | Python/RunCommandParallel.py:24-28 | Counting into a fresh `{0: 0}` always leaves entry 0. The zero count equals the number of codes exactly when all codes are 0, and otherwise a non-zero entry survives the deletion of 0. |
| ReturnCodes.BatchVerdict | Python/RunCommandParallel.py:45-53 | The verdict of a fresh count is a non-zero code that occurs in the list. No non-zero code occurs more often, and no larger non-zero code occurs as often. |
| RunCommandParallel.ExecuteCommandLine | Python/RunCommandParallel.py:5-17 | The tuple version of the retry loop meets the same return-code specification as the method version. |
| RunCommandParallel.TryFrom | Python/RunCommandParallel.py:7-17 | From any attempt on, after earlier attempts all timed out, the rest of the loop gives a code that meets the return-code specification. |
| RunCommandParallel.AllFutureResults | Python/RunCommandParallel.py:20-21 | The pool gives one code per command, in list order, and each is that command's return code. |
| RunCommandParallel.IncrementDict | Python/RunCommandParallel.py:30-34 | The caller's dict gets one more occurrence of the key, and no other entry changes. The sum of the counts grows by 1. |
| RunCommandParallel.ExecuteAllCommandLines | Python/RunCommandParallel.py:19-28 | A new dict is returned. It holds `{0: 0}` with every command's code counted, always has entry 0, and its counts add up to the number of commands. |
| RunCommandParallel.TallyingAllResults | Python/RunCommandParallel.py:36-53 | Same as the method tally, on the caller's dict and the given number of command lines. |
| RunCommandParallel.RunBatch | Python/RunCommandParallel.py:60-61 | Counting and then tallying one batch never raises. It gives 0 exactly when every command returned 0. Otherwise it gives the most frequent non-zero code that occurred, a tie going to the larger code. |

## Left out

- Starting processes, waiting with a timeout, and terminating a process are left out. An attempt's outcome is a parameter.
- Launch failures are left out. When `Popen` itself raises, the exception escapes the loop, and the model has no such outcome.
- The thread pool (`ThreadPoolExecutor`, `cpu_count`) is left out. The parallel runs are a map over the list in list order, which is also the order `executor.map` returns results in.
- Opening and reading the file is left out. The reader takes the file's lines, and a missing file is not modelled.
- All `print` output is left out: timeouts, blank lines, the sorted counts, the early stop and the final result.
- The `thresholdOfError` getter is left out. Its extra `value` parameter makes reading the property raise TypeError.
- The unused `__hasSetThreshouldOfWarning` / `__hasSetThreshouldOfError` attributes of `CommandParameter` are left out.
- The `__main__` demonstration is left out, and so is the module-level `print` and `exit`. Lines 60-61 of the script are `RunCommandParallel.RunBatch`.
- CommandListReader.ParseInt has no limit on the number of digits. Recent Python versions make `int()` raise ValueError above `sys.get_int_max_str_digits()` digits (4300 by default). The limit depends on the interpreter version and its configuration, and 0 turns it off. So `ParseIntRoundTrip`, `ParseFieldsRoundTrip` and `ReadRoundTrip` hold for such an interpreter only when every number has at most that many digits.
- CommandListReader.ParseIntRoundTrip, CommandListReader.ParseFieldsRoundTrip and CommandListReader.ReadRoundTrip are stated for the model's unlimited `int()`. Under a digit limit they cover only numbers within it, as in the line above.
- CommandListReader.ParseInt accepts only ASCII decimal digits with an optional sign and single underscores. The Unicode digits Python's `int()` also accepts are not modelled.
- CommandLineExecutor.NewCommandParameter takes integers only. A float timeout passed directly to the Python constructor, and values of other types, are not modelled.
- CommandLineExecutor.CommandListParallelExecutor.Execute and CommandLineExecutor.CommandListSerialExecutor.Execute return the commands' return codes as ghost values. Their contracts speak of them, but only the verdict is a real result.
- `Python/FileWaiter.py` is not part of this model.
