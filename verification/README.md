# llm-init: a verified model

llm-init prepares a model for an inference engine, watches the engine afterwards, and serves a few
requests of its own on the way. This project models the parts of it whose correctness depends on an
argument and not on reading one function, and proves that argument.

| file | what it models |
|---|---|
| `TranscriptRun.dfy` | the transcript translator: a group of turns is asked for, retried once, halved, and answered in place |
| `Prompt.dfy` | the prompt of one call, the budget and size estimate, and the reading back of a numbered reply |
| `Repeats.dfy` | the guard against an engine that repeats itself: cutting a line into tokens and collapsing runs of blocks |
| `RepeatedBlocks.dfy` | what that guard makes of a whole line: how many copies it leaves of a block said over and over, and how the result reads when it is cut again |
| `Validate.dfy` | what a transcript request must look like, and so what the translator may assume |
| `Tracker.dfy` | the restart tracker: requests, observers that watch the engine's port, and a record on disk, interleaved step by step |
| `Lifecycle.dfy` | the health loop beside the lifecycle loop: one phase, one ownership flag, a wake channel and pending options |
| `RangeDownload.dfy` | the resumable downloader: a `.part` file against a server that may cut, ignore or replace what it serves |
| `Shlex.dfy` | the argument tokenizer |
| `KvPool.dfy` | the arithmetic of llama.cpp's context window, its KV pool, and when the pool is oversubscribed |
| `Labels.dfy`, `Aggregator.dfy`, `AggregatorRuns.dfy` | which file a download progress bar counts, and the byte accounting over bars that interleave |
| `TokenBucket.dfy` | the rate limit on operator retries |
| `Fingerprint.dfy` | the bytes that identify a download request |
| `Numbers.dfy`, `Text.dfy` | printing and reading integers, and the text operations the others lean on |

Each component has the same shape. Specification functions say what an operation does to a value; a
method or a class in the form of the original code is proved to compute exactly that; and lemmas prove
what the component is for over every input, every run or every reachable state. An engine, a server, a
clock or a cancellation is an arbitrary function from the number of a call or a reading to what it
answers, so a lemma about one of them holds for all of them. Processes that run side by side are one
state machine whose steps interleave freely; a step is one critical section, or one store where the
original stores outside its lock.

Check everything with `dafny verify dfyconfig.toml`.

## Where code and comments disagree

The model follows the code. These are the places where a comment, or the property one would expect,
says something else. For each a lemma gives an input or a run that shows it, and a lemma over all inputs,
states or runs says exactly when the expected does hold.

- `internal/config/kvunified.go:39-43` says that `-np 0` counts as auto. Line 53 compares with less than
  zero, so it does not, and `internal/config/context_size.go:97` then divides by it.
  `KvPool.ZeroSlotsExample` is such a configuration, and
  `KvPool.ZeroSlotsDivides` says exactly when.
- In a split pool one expects the slots' windows to come within a token a slot of the pool. When `-c` is
  absent and a per-slot ceiling is set, the pool is padded and the window is not, so the bound can fail
  (`KvPool.SplitCanLeavePoolUnused`); `KvPool.SplitWindowsFillPool` gives the exact condition.
- Collapsing is not idempotent: the pass for short blocks can leave a run of longer ones after their pass
  is over (`Repeats.CollapsingIsNotIdempotent`). Collapsing twice is collapsing once exactly when no pass makes
  a run of longer blocks that no later pass unmakes; as a check on the result, when it has no run of any
  length (`Repeats.CollapsingTwice`).
- `internal/translate/repeats.go:23` says that a repeated run is cut down to one copy. The pass for longer blocks takes
  several copies for one block, and what it leaves can be too few for the block's own pass: a word said nine times is
  left three times, a phrase of three words said six times is left twice (`RepeatedBlocks.LoopsCanBeLeft`), and a pair
  is never cut down to one. `RepeatedBlocks.BlockSaidAgain` gives the number of copies left, and
  `RepeatedBlocks.ComesBackOnceExactly` when that is one.
- One expects a result without six equal tokens in a row. What the guard keeps has none, but a word can lose the space
  after it with the copy that is deleted, and then runs on into the next (`internal/translate/repeats.go:115`), so the
  result read again can (`RepeatedBlocks.ResultCanHoldARun`). `RepeatedBlocks.ResultReads` says how the result reads and
  exactly when it has none, and `RepeatedBlocks.WordsNeverRunOn` that no text without an ideograph is affected.
- `internal/lifecycle/healthloop.go:297-299` promises that a pass's own loading reaches ready only through
  the lifecycle loop. The health loop can move it exactly if, when the pass writes it, the ownership flag is
  held or its claim pending, and not about to be given up (`Lifecycle.WrittenLoadingIsMovedExactly`, and for
  every reachable state `Lifecycle.PassLoadingIsMovedExactly`). That takes no race: the flag may be set for
  a relaunch inside the pass (`Lifecycle.UnracedPassCanBeCalledReady`). It can also outlive the pass's own
  clearing, since phase and flag are two stores, lines 247-254, and a pass may begin between them
  (`Lifecycle.RacedPassCanBeCalledReady`).
- `internal/lifecycle/healthloop.go:297-298` says that the degraded it lifts is from an engine that went
  down. It also lifts one that a failed pass wrote (`internal/lifecycle/ensure.go:663-667`), on a model the
  health loop never degraded (`Lifecycle.FailedPassCanBeCalledReady`): as long as no pass writes the phase,
  exactly if a healthy probe comes to its recovery (`Lifecycle.RecoveryLiftsExactly`), which some run brings
  about exactly if the health loop has started (`Lifecycle.PassDegradedIsLiftedExactly`).
- A retry made during a pass wakes nobody: its options wait, but the channel is fetched only when the loop
  parks (`internal/lifecycle/manager.go:359-362`). `Lifecycle.RetryDuringPassWakesNobody` is a run that ends
  parked on pending options; `Lifecycle.RetryWakesOnlyTheParked` is the exact condition, and covers every
  state of a pass.
- The tracker's record on disk is written without looking at the generation
  (`internal/handoff/tracker.go:334` and `347`), so the file can claim a supervisor no status ever claimed
  (`Tracker.DiskCanOutrunStatus`). File and status agree exactly when some observer that writes the record
  reported its edge before it was superseded (`Tracker.FileAgreesExactly`).
- An echo of the prompt reads back as shown exactly if every turn is shown on one line, and none opens with
  list punctuation, which the reader strips (`Prompt.EchoReadsBack`); an accepted turn that opens with a dash
  loses it (`Validate.EchoLosesDash`).
- A `.part` that has its total is called complete without asking (`internal/fetch/range.go:339-342`), also
  when the stream it came from broke there. The file is then a whole version exactly if that version has no
  more (`RangeDownload.SuccessIsWhole`, `RangeDownload.BrokenAtTotalIsNotWhole`).
- Without an ETag a range of one version can be joined to the start of another
  (`RangeDownload.WithoutEtagVersionsMix`). `.part` is then a start of the version the range is of exactly if
  it was one before (`RangeDownload.JoinedRangeKeepsVersionExactly`).
- The fingerprint's bytes tell requests apart only if their strings hold no closing byte where it counts;
  `Fingerprint.HashedAgreesWithEqual` and `Fingerprint.AmbiguousCollides` say where it does, and
  `Fingerprint.ZeroByteCollides` that a zero byte always does.
- Bars the listing cannot name are told apart by rewinding alone, so their bytes can depend on the order of
  their lines (`AggregatorRuns.UnnamedInterleavingMatters`). A label has one bar exactly if none of its lines
  restarts (`AggregatorRuns.LabelHasOneBarExactly`). Its bytes are the sum of the peaks between its restarts
  (`AggregatorRuns.LabelBytesAreSumOfPeaks`), and so its highest count exactly if no two of those are above
  zero (`AggregatorRuns.LabelBytesAreHighestCount`).

## Model

| member | source | states |
|---|---|---|
| `TranscriptRun.TranscriptRun.Translate` | internal/translate/transcript_run.go:128-200 | one task leaves the counters, the log of calls and every turn's answer as the retry tree says, and fails the request exactly when that does |
| `TranscriptRun.TranscriptRun.AfterFailedCall` | internal/translate/transcript_run.go:158-199 | after a call that gave no lines a task is cancelled, fails the request, is retried once, is marked if it is one turn, or is halved, in that order |
| `TranscriptRun.TranscriptRun.Split` | internal/translate/transcript_run.go:208-224 | the left half is done first, and the right half follows it unless the left failed, with the last turns of the left as its lead-in |
| `TranscriptRun.TranscriptRun.FitsWindow` | internal/translate/transcript_run.go:232-237 | whether rules, lead-in, turns and reply budget fit the window, an unknown window fitting everything |
| `TranscriptRun.TranscriptRun.Ask` | internal/translate/transcript_run.go:240-273 | one call moves exactly one of the two counters, adds its usage when it was answered, and gives a line for every turn, a cut-off, a misalignment or an outage |
| `TranscriptRun.TranscriptRun.Mark` | internal/translate/transcript_run.go:277-281 | sets the reason of the group's turns and of no others |
| `TranscriptRun.TranscriptRun.Fill` | internal/translate/transcript_run.go:151-156 | writes each line, with its loops collapsed, to the turn of its place and to no other |
| `TranscriptRun.Trailing` | internal/translate/transcript_run.go:302-311 | the last turns of a group, at most sixteen, as the lead-in of what follows |
| `TranscriptRun.HandleTranscript` | internal/translate/transcript_run.go:34-77 | a request either fails whole or returns one answer a turn, those of the retry tree |
| `TranscriptRun.TranscriptRun.constructor` | internal/translate/transcript_run.go:34-77 | a request starts with an empty answer under each turn's id and all counters at zero |
| `TranscriptRun.CallsAreBounded` | internal/translate/transcript_run.go:128-224 | a task of n turns makes at most 2n calls, and at most 2n-1 once its retry is spent, whatever the engine answers and wherever the window splits it |
| `TranscriptRun.CallBoundIsMet` | internal/translate/transcript_run.go:128-224 | that bound is attained by an engine that answers every call with nothing |
| `TranscriptRun.RequestCalls` | internal/translate/transcript_run.go:128-224 | a request of n turns makes at most 2n calls |
| `TranscriptRun.OthersAreKept` | internal/translate/transcript_run.go:128-281 | a task touches no turn outside it, changes no id, and only adds to the log |
| `TranscriptRun.OutageIsBounded` | internal/translate/transcript_run.go:162-197 | a task fails the request only when no call was ever answered and exactly two were made; otherwise the request stays healthy |
| `TranscriptRun.RequestOutage` | internal/translate/transcript_run.go:132-197 | a request fails exactly when its calls are two, both unanswered, with no cancellation after the second, and an engine that never answers is called at most twice |
| `TranscriptRun.AnswersAreJustified` | internal/translate/transcript_run.go:128-281 | every turn of a task that does not fail ends with one of a text and a reason: the text is the line some call gave for that turn's place, and a reason is true of the run; `upstream` only after a failed call for that turn alone that came after some call was answered |
| `TranscriptRun.RequestAnswers` | internal/translate/transcript_run.go:34-77 | a request that succeeds answers every turn, in order and under its own id, with exactly one of a text and a reason, each of them justified |
| `TranscriptRun.PromptsAreOk` | internal/translate/transcript_run.go:104-149 | every call of a task is for a stretch of the request's turns, with its own base budget or exactly twice that after a cut-off reply and a spent retry, with the lead-in due to it, and within the known window if it asks for several turns |
| `TranscriptRun.RequestPrompts` | internal/translate/transcript_run.go:180-237 | the same for every call of a request, and the counters, the usage and the log agree |
| `TranscriptRun.CallsAreTimely` | internal/translate/transcript_run.go:132-161 | no call of a task is made on a reading that is cancelled or late, and each is made after all readings of the calls before |
| `TranscriptRun.CallsAreDue` | internal/translate/transcript_run.go:180-224 | every call of a task is the whole request, a retry of one that missed (with exactly twice the budget if that was cut off), or a half of a group that does not fit or whose last try missed; no group that does not fit is asked for |
| `TranscriptRun.AnswersAreExact` | internal/translate/transcript_run.go:128-281 | when a task does not fail the request, a turn has a text exactly if some call gave one, `unaligned` or `upstream` exactly if its last try alone missed and no cancellation followed, and `deadline` exactly if neither, after a reading that was cancelled or late |
| `TranscriptRun.RequestIsTimely` | internal/translate/transcript_run.go:132-224 | every call of a request is timely and due, and once every reading is cancelled or late no call is made |
| `TranscriptRun.RequestAnswersExactly` | internal/translate/transcript_run.go:34-77 | every turn of a request that does not fail ends with exactly what its calls and the clock make of it |
| `TranscriptRun.CountersAddUp` | internal/translate/transcript_run.go:240-273 | calls made are the answered and the failed ones together, and the usage is the sum of the answered replies' |
| `Prompt.TranscriptLeadIn` | internal/translate/transcript_prompt.go:56-67 | the loop builds the lead-in: a heading and the lines before, labelled |
| `Prompt.LeadInReads` | internal/translate/transcript_prompt.go:56-67 | the lead-in's lines are an empty one, the heading, and each turn's label and text in order, none left out |
| `Prompt.TranscriptUser` | internal/translate/transcript_prompt.go:74-81 | the loop builds the numbered prompt: one line a turn, counted from one, labelled with its speaker |
| `Prompt.TranscriptMaxTokens` | internal/translate/transcript_prompt.go:108-115 | the loop computes the reply budget from the turns' characters, speakers included, and their number |
| `Prompt.BudgetOfParts` | internal/translate/transcript_prompt.go:108-115 | two parts of a group get together the group's budget and the headroom once more, so halving never asks for a longer reply |
| `Prompt.BudgetOfOne` | internal/translate/transcript_prompt.go:108-115 | one turn gets the headroom and twice its characters, the speaker's name included |
| `Prompt.EstimateTokens` | internal/translate/transcript_prompt.go:125-135 | the loop counts an ideograph as a token and other characters by the piece |
| `Prompt.EstimateIs` | internal/translate/transcript_prompt.go:125-135 | an ideograph counts as one token, and of the other characters every three, begun or whole |
| `Prompt.EstimateIsSubadditive` | internal/translate/transcript_prompt.go:125-135 | a prompt's estimate is at most the sum of its parts', which is why checking the parts bounds the whole |
| `Prompt.SplitNumberPrefix` | internal/translate/transcript_prompt.go:199-213 | the loop finds the leading number of a line and what follows it without list punctuation, or that there is none |
| `Prompt.MarkComesOff` | internal/translate/transcript_prompt.go:199-213 | a number, any one of the eight marks, a space or none, and a text read as that number and that text |
| `Prompt.ParseNumbered` | internal/translate/transcript_prompt.go:144-160 | the loop over a reply's lines gives each number its first usable line, or nothing unless all numbers have one |
| `Prompt.FirstAnswerIsFirst` | internal/translate/transcript_prompt.go:144-160 | the line taken for a number answers it and no earlier one does; there is none exactly when no line does |
| `Prompt.ReplyLinesUp` | internal/translate/transcript_prompt.go:144-160 | a reply lines up exactly when each number 1..n has a usable line, and each turn then gets a trimmed, non-empty text |
| `Prompt.UnnumberedSingle` | internal/translate/transcript_prompt.go:177-195 | the loop finds the lone line of a reply to one turn, and nothing when there are several |
| `Prompt.LoneLineExactly` | internal/translate/transcript_prompt.go:177-195 | a reply is read as its one line that says something, and as nothing when there is none or there are several |
| `Prompt.LoneNumberComesOff` | internal/translate/transcript_prompt.go:177-195 | the number that line opens with comes off, and one that opens with no digit is only trimmed |
| `Prompt.StripEchoedLabels` | internal/translate/transcript_prompt.go:223-239 | the loop takes a leading label off every line, or off none |
| `Prompt.LabelsStayOn` | internal/translate/transcript_prompt.go:223-239 | one line without a label, or with nothing after it, keeps the labels of all on |
| `Prompt.LabelsAllComeOff` | internal/translate/transcript_prompt.go:223-239 | when every line has one and says something after it, each is left what follows its label, trimmed |
| `Prompt.WithoutLabelsKeeps` | internal/translate/transcript_prompt.go:223-239 | a line that says something still does after its label came off |
| `Prompt.EchoReadsBack` | internal/translate/transcript_prompt.go:74-160 | for any valid turns, a verbatim echo of the prompt reads back as the turns as shown, exactly when each is shown on one line and none opens with list punctuation |
| `Prompt.EchoRoundTrip` | internal/translate/transcript_prompt.go:74-239 | when every speaker is named without `]` or a line break, reading an echo back and stripping its labels gives the turns' own texts |
| `Repeats.Tokenize` | internal/translate/repeats.go:55-82 | the loop cuts a text into words, lone ideographs and the spaces that belong to them, losing nothing but leading space |
| `Repeats.JoinTokens` | internal/translate/repeats.go:91-98 | the loop writes the tokens and their separators one after the other |
| `Repeats.JoinOfTokens` | internal/translate/repeats.go:55-98 | joining the tokens of a text gives the text without leading space, and each token is a word or one ideograph |
| `Repeats.SameBlock` | internal/translate/repeats.go:123-130 | two blocks read alike token by token, whatever separates the tokens |
| `Repeats.CollapseTokenRepeats` | internal/translate/repeats.go:100-121 | the nested loops, deleting in place, do the passes from the longest block to single tokens |
| `Repeats.CollapseRepeats` | internal/translate/repeats.go:33-43 | a text is cut, collapsed and joined again only if it is long enough and something changed |
| `Repeats.CountCopies` | internal/translate/repeats.go:107-110 | the inner loop counts the copies of a block that follow one another |
| `Repeats.LoopDetected` | internal/translate/repeats.go:104-113 | counting copies from a place finds a run of enough blocks exactly when there is one |
| `Repeats.PassLeavesNoRun` | internal/translate/repeats.go:100-121 | after the pass for blocks of n tokens no place holds enough consecutive copies of one, though deleting joins new neighbours to places already passed |
| `Repeats.PassKeeps` | internal/translate/repeats.go:100-121 | a pass keeps a subsequence of the tokens in which every text still occurs |
| `Repeats.PassChanges` | internal/translate/repeats.go:100-121 | a pass changes nothing exactly when there was no run, and shortens the tokens otherwise |
| `Repeats.CollapseKeeps` | internal/translate/repeats.go:100-121 | collapsing keeps a subsequence with the same set of texts, non-empty if the tokens were, and changes nothing exactly when no block length had a run |
| `Repeats.LastPassIsForSingles` | internal/translate/repeats.go:100-121 | no run of single tokens is left at the end |
| `Repeats.CollapsedTextKeeps` | internal/translate/repeats.go:33-43 | a line that says something still says something |
| `Repeats.CollapsingIsNotIdempotent` | internal/translate/repeats.go:100-121 | a^6 b c a^7 b c a^8 b c collapses to (a b c)^3, which collapses further |
| `Repeats.CollapsingTwice` | internal/translate/repeats.go:100-121 | collapsing twice is collapsing once exactly when no pass for some block length makes a run of longer blocks that no later pass unmakes, which is when none of any length is left |
| `RepeatedBlocks.BlockSaidAgain` | internal/translate/repeats.go:33-121 | a line that is a block of 1 to 40 tokens without an inner run, said k times, is left with the copies the passes leave of k, the first block as it was; as it is if those are all, and trimmed otherwise |
| `RepeatedBlocks.ComesBackOnceExactly` | internal/translate/repeats.go:33-121 | said twice or more it comes back as that block once, trimmed, if and only if the passes leave one copy |
| `RepeatedBlocks.OneIsLeft` | internal/translate/repeats.go:100-121 | they do of six to eight copies of one token, of three to five of a block of three or more tokens, and of any three or more of a block of over twenty; never of a pair; and fewer copies stay |
| `RepeatedBlocks.CopiesLeftAreFew` | internal/translate/repeats.go:100-121 | at most five copies are left of a block of one or two tokens, and at most two of a longer one |
| `RepeatedBlocks.LoopsCanBeLeft` | internal/translate/repeats.go:100-121 | a word said nine times is left three times, and a phrase of three words said six times twice |
| `RepeatedBlocks.UnchangedExactly` | internal/translate/repeats.go:33-43 | a text comes back as it is if and only if its tokens have no run of blocks of any length up to 40 |
| `RepeatedBlocks.CutAgain` | internal/translate/repeats.go:55-98 | any tokens joined and cut again are those tokens, with words put together that no space parts |
| `RepeatedBlocks.ResultReads` | internal/translate/repeats.go:33-43 | so the result of the guard reads as the tokens it kept, with such words put together, and holds no six equal tokens in a row exactly if those do not |
| `RepeatedBlocks.ResultHoldsNoRunOfSingles` | internal/translate/repeats.go:33-121 | when no two words kept stand together without a space, the result reads as the tokens kept and holds no six equal ones in a row |
| `RepeatedBlocks.WordsNeverRunOn` | internal/translate/repeats.go:55-121 | which is so of every text without an ideograph |
| `RepeatedBlocks.ResultCanHoldARun` | internal/translate/repeats.go:100-121 | a text of two ideographs and two words whose result holds six equal words in a row |
| `Validate.ValidateSegments` | internal/translate/transcript.go:186-219 | accepts exactly the requests with turns, not too many, each with some text and an id of its own; gives each turn with its spaces collapsed, or the first fault |
| `Validate.AcceptableExactly` | internal/translate/transcript.go:186-219 | acceptable are 1 to 64 turns, each with a word of text and an id of its own once trimmed |
| `Validate.FaultExactly` | internal/translate/transcript.go:186-219 | a turn is rejected for having no id, an earlier turn's id, or no text, in that order |
| `Validate.ValidateContext` | internal/translate/transcript.go:221-238 | keeps the last lines of the context, at most sixteen, less those that say nothing |
| `Validate.RememberedExactly` | internal/translate/transcript.go:221-238 | of the context every line with a word in it is kept, in order, with its name trimmed and its spaces collapsed, and no other |
| `Validate.CollapseSpaceIsLine` | internal/translate/transcript.go:266-268 | collapsed text is one trimmed line with the same words, collapses no further, and is empty exactly when there are no words |
| `Validate.AcceptedTurnsAreValid` | internal/translate/transcript.go:186-219 | accepted turns meet everything the prompt's lemmas ask of turns |
| `Validate.AcceptedEchoRoundTrip` | internal/translate/transcript_prompt.go:74-239 | from the request as received to the echo: what comes back is each turn's text with its spaces collapsed |
| `Validate.EchoLosesDash` | internal/translate/transcript_prompt.go:199-213 | an accepted turn "- hello" whose echo reads back as "hello" |
| `Tracker.Tracker.constructor` | internal/handoff/tracker.go:151-168 | a tracker starts idle, knowing what the record in its run directory says, and nothing without a run directory |
| `Tracker.Tracker.Request` | internal/handoff/tracker.go:183-230 | a request supersedes the observer in flight, starts its own, keeps the invariant, and its receipt tells only what was known before |
| `Tracker.RequestStarts` | internal/handoff/tracker.go:183-230 | a request makes its generation current, watching exactly if there is a run directory and a probe, with nothing seen of it yet and the supervision known before; it cancels the observer in flight and starts its own |
| `Tracker.Tracker.Settle` | internal/handoff/tracker.go:372-379 | a report changes the status only if it is for the current generation |
| `Tracker.Tracker.Observe` | internal/handoff/tracker.go:309-368 | each step of an observer, at any moment between other steps, does what the state machine says and keeps the invariant |
| `Tracker.NextKeeps` | internal/handoff/tracker.go:183-379 | every step of a request or of any observer keeps the invariant |
| `Tracker.RunKeeps` | internal/handoff/tracker.go:183-379 | so does every interleaving |
| `Tracker.VerdictsAreEarned` | internal/handoff/tracker.go:309-368 | for the current generation no-supervisor is published only if every probe was alive, unverified only if every probe was down, both only after the window, and confirmed only if two probes disagreed; a back time comes with a down time; a finished observation leaves a verdict |
| `Tracker.DeadlineIsSet` | internal/handoff/tracker.go:309-310 | the current observer's deadline is the window after it began, whatever happens after |
| `Tracker.KeepsProbing` | internal/handoff/tracker.go:322-368 | within four of its own steps it is done or takes another probe, however other steps come between |
| `Tracker.ProbeEnds` | internal/handoff/tracker.go:322-368 | a probe at or past the deadline, or one that finds the engine back, ends it within two more steps: the status is no-supervisor, unverified or confirmed by its probes alone, dated and supervised as they say, and outstanding exactly if the engine was up and is down |
| `Tracker.ProbeGoesOn` | internal/handoff/tracker.go:322-351 | one before the deadline that does not find it back leaves the observation going on and outstanding; the first to find the engine down confirms the restart and dates it, and any other changes nothing |
| `Tracker.FirstProbeGoesOn` | internal/handoff/tracker.go:312-325 | the first probe never ends it, and dates an engine that is down |
| `Tracker.RunIsLater` | internal/handoff/tracker.go:261-287 | over any run, down and back times once set stay, so `Relaunch` has at most one value a generation, supervision stays known, and no superseded generation returns |
| `Tracker.SupersededIsPowerless` | internal/handoff/tracker.go:372-379 | a superseded observer never changes the status again, at any later point of any run |
| `Tracker.SupervisionIsEarned` | internal/handoff/tracker.go:309-430 | starting from an empty record, supervision is claimed only if some observer saw two probes disagree |
| `Tracker.DiskCanOutrunStatus` | internal/handoff/tracker.go:331-350 | a run in which the file claims a supervisor and the status never did |
| `Tracker.FileAgreesExactly` | internal/handoff/tracker.go:309-430 | in every run that begins without a record: once one is written, the status claims a supervisor if and only if some observer that writes it reported its edge before it was superseded; the record names a generation with an observer whose probes disagreed; and a status that claims a supervisor is recorded or about to be |
| `Lifecycle.Manager.constructor` | internal/lifecycle/manager.go:190-223 | a manager starts in its first phase, or in ready if the last process left that, with nothing pending |
| `Lifecycle.Manager.MarkEngineRelaunching` | internal/lifecycle/healthloop.go:240-256 | moves ready to loading and then claims it, exactly when a relaunch is outstanding and the phase is ready |
| `Lifecycle.Manager.MarkEngineDown` | internal/lifecycle/healthloop.go:269-290 | moves to degraded exactly from ready or from its own loading, with the reason, and gives its claim up; otherwise only the cached liveness changes |
| `Lifecycle.Manager.RecoverFromEngineOutage` | internal/lifecycle/healthloop.go:300-313 | lifts degraded and its own loading, with the last error and the claim, and nothing else |
| `Lifecycle.Manager.RequestReensure` | internal/lifecycle/manager.go:327-331 | wakes the loop once and leaves pending options alone |
| `Lifecycle.Manager.RetryWith` | internal/lifecycle/manager.go:315-320 | replaces the pending options and wakes the loop |
| `Lifecycle.Manager.ConsumePendingOpts` | internal/lifecycle/manager.go:346-352 | hands the pending options to the pass and leaves none |
| `Lifecycle.Manager.BeginPass` | internal/lifecycle/ensure.go:31-37 | a pass takes the options and then disowns any loading of the health loop's |
| `Lifecycle.Manager.SetPhase` | internal/lifecycle/ensure.go:739-781 | a pass moves the phase and clears the error, and leaves the claim alone |
| `Lifecycle.Manager.AnnounceTransfer` | internal/adapter/hfwrap/runner.go:232 | the transfer's own move to download writes the phase and clears no error |
| `Lifecycle.Manager.Fail` | internal/lifecycle/ensure.go:663-677 | a failed pass ends degraded or failed, by whether it may be retried, with its message |
| `Lifecycle.FailedPassEnds` | internal/lifecycle/ensure.go:663-677 | a failed pass that may not be retried leaves the model failed with its message over any run until a pass writes the phase; one that may leaves it degraded with its message until a recovery or a pass |
| `Lifecycle.PassWrites` | internal/lifecycle/ensure.go:739-781 | what a pass's move to download, loading or ready, and the transfer's, make of phase and error; a download stays one, with its error, over any run until a pass writes the phase |
| `Lifecycle.Manager.JudgeFailure` | internal/lifecycle/healthloop.go:184-211 | within the grace nothing happens; past it the model is called down, and a pass is asked for exactly when that changed the phase and the engine lost the model |
| `Lifecycle.Manager.ProbeAndPublish` | internal/lifecycle/healthloop.go:129-211 | a probe nothing interrupts does what its steps one after the other do |
| `Lifecycle.HealthyProbeDoes` | internal/lifecycle/healthloop.go:129-313 | in every reachable state a healthy probe lifts a degraded model or a claimed loading to ready, with the error and the claim, counts a return exactly if the probe before failed, and does nothing else |
| `Lifecycle.FailingProbeDoes` | internal/lifecycle/healthloop.go:141-211 | in every reachable state a failing probe claims a ready model if a relaunch is outstanding, and once its stretch has lasted the grace records the engine as down and degrades a ready model or a claimed loading, with the reason, asking a daemon that lost the model for a pass; and does nothing else |
| `Lifecycle.NextKeeps` | internal/lifecycle/healthloop.go:129-320 | every step of either loop keeps the invariant |
| `Lifecycle.RunKeeps` | internal/lifecycle/healthloop.go:129-320 | so does every interleaving |
| `Lifecycle.HealthTouchesOnlyItsPhases` | internal/lifecycle/healthloop.go:240-320 | in every reachable state the health loop never enters or leaves init, download or failed, moves loading only while it holds the claim, and a pass's own only if that was covered; it then has moved ready to loading itself since the pass began exactly unless a pass began between that move and the claim |
| `Lifecycle.PassLoadingIsMovedExactly` | internal/lifecycle/healthloop.go:269-320 | in every reachable state whose loading a pass wrote, some run in which no pass writes the phase moves it, even of the health loop alone, if and only if its claim covers that loading |
| `Lifecycle.WrittenLoadingIsMovedExactly` | internal/lifecycle/healthloop.go:297-320 | from the moment a pass writes loading, the health loop can move it if and only if the flag was held then or its claim pending, and not about to be given up |
| `Lifecycle.RecoveryLiftsExactly` | internal/lifecycle/healthloop.go:300-313 | over any run in which no pass writes the phase, the degraded a failed pass wrote is lifted if and only if a recovery is made |
| `Lifecycle.PassDegradedIsLiftedExactly` | internal/lifecycle/healthloop.go:129-313 | in every reachable state whose degraded a pass wrote, some run in which no pass writes the phase lifts it if and only if the health loop has started |
| `Lifecycle.DegradesOnlyAfterGrace` | internal/lifecycle/healthloop.go:141-211 | degraded is written only after an unbroken stretch of failing probes that lasted at least the grace, and with the engine recorded as down |
| `Lifecycle.CountersAreRight` | internal/lifecycle/healthloop.go:141-211 | `EngineReturns` is the number of failing stretches a healthy probe ended, and passes asked for never outnumber the moves to degraded |
| `Lifecycle.PendingOptionsSurvive` | internal/lifecycle/manager.go:315-352 | over any run only a retry or the pass that takes them changes pending options |
| `Lifecycle.OptionsAreTakenOnce` | internal/lifecycle/manager.go:315-352 | the options of a retry are those the next pass takes, whatever comes between, and none are left for another |
| `Lifecycle.RacedPassCanBeCalledReady` | internal/lifecycle/healthloop.go:247-313 | a reachable state in which a pass's own loading is called ready in the middle of the pass, the flag having outlived its clearing |
| `Lifecycle.UnracedPassCanBeCalledReady` | internal/lifecycle/healthloop.go:240-313 | another, with the flag set inside the pass and no race at all |
| `Lifecycle.FailedPassCanBeCalledReady` | internal/lifecycle/ensure.go:663-677 | a reachable state in which a failed pass's degraded is called ready though the health loop has never degraded the model |
| `Lifecycle.RetryDuringPassWakesNobody` | internal/lifecycle/manager.go:315-382 | a run in which a retry comes inside a pass, and the loop then parks with its options pending and no wake |
| `Lifecycle.RetryWakesOnlyTheParked` | internal/lifecycle/manager.go:315-382 | a retry wakes the loop if and only if it is parked; one made at any moment before parking leaves its options, and parking then sees no wake but a timer's |
| `RangeDownload.ParseContentRangeStart` | internal/fetch/range.go:552-567 | reads the first byte position of a range, or none |
| `RangeDownload.ContentRangeReadsBack` | internal/fetch/range.go:552-567 | a range printed as section 14.4 of RFC 9110 has it gives its start back, and nothing when that does not fit in 64 bits |
| `RangeDownload.ContentRangeExactly` | internal/fetch/range.go:552-567 | a header gives a start exactly when it is the prefix, a number of 64 bits, a dash and anything |
| `RangeDownload.Downloader.constructor` | internal/fetch/range.go:141-146 | a call starts with the files as they are and no GET made |
| `RangeDownload.Downloader.StreamInto` | internal/fetch/range.go:412-496 | the loop over a body appends to or starts `.part` over, stops at the cap, a broken stream or a surplus, and says which |
| `RangeDownload.Downloader.Attempt` | internal/fetch/range.go:328-410 | one attempt treats a range, a full body, a 416, other statuses and a failed request each in its own way, and makes at most one GET |
| `RangeDownload.Downloader.RunAttempts` | internal/fetch/range.go:231-285 | attempts go on while retries are left and the failure may be retried |
| `RangeDownload.Downloader.Download` | internal/fetch/range.go:184-285 | a call keeps a complete file, or streams `.part` and puts it in place exactly when it has the size |
| `RangeDownload.DownloadEnds` | internal/fetch/range.go:184-496 | as long as every GET brings one of the things worth another (408, 429, 500 to 599, a passing transport error, a broken or short body, a 416, a range from elsewhere) the call goes on, up to five times more by default; it succeeds with the file a GET delivers, or once `.part` has its total, and otherwise fails with what a GET, a cut wait or the last retry ended it with, after exactly so many GETs |
| `RangeDownload.DownloadStops` | internal/fetch/range.go:184-226 | a HEAD that fails for good or gives another size ends the call before any GET, and so does a file that is already there |
| `RangeDownload.AnyServer` | internal/fetch/range.go:184-496 | against any server: success with a known total leaves exactly that many bytes, there are at most MaxRetries+1 GETs, and under a cap `.part` stays within the larger of cap and starting size and one buffer, after every attempt |
| `RangeDownload.AttemptKeepsVersion` | internal/fetch/range.go:328-496 | with an ETag and an honest server, one attempt turns a start of one version into a start of one version, the object changing or not |
| `RangeDownload.HonestServer` | internal/fetch/range.go:184-496 | after every attempt `.part` is a prefix of one single version, and a download that succeeds with a known total is exactly the first total bytes of one version |
| `RangeDownload.SuccessIsWhole` | internal/fetch/range.go:184-496 | when a clean end of a body is the version's end, a download that succeeds is the whole of the version last served, except when `.part` had its total before any GET or from a stream that broke there; the file is then whole exactly if its version has no more |
| `RangeDownload.BrokenAtTotalIsNotWhole` | internal/fetch/range.go:335-343 | HEAD describes two bytes, a version of three breaks after two, and the download succeeds with a file that is no whole version |
| `RangeDownload.JoinedRangeKeepsVersionExactly` | internal/fetch/range.go:328-410 | whatever ETag is sent, a range joined to `.part` leaves a start of the version it is of if and only if `.part` started that; every other attempt leaves a start of some version |
| `RangeDownload.WithoutEtagVersionsMix` | internal/fetch/range.go:328-410 | without an ETag an honest server can leave a file that starts no version |
| `Shlex.Shlex` | internal/config/shlex.go:26-75 | the byte loop returns the tokens, the open quote or the dangling backslash of the line |
| `Shlex.OneByte` | internal/config/shlex.go:26-75 | a line of one byte is nothing for the four blanks, an open quote for the two quotes, dangling for the backslash, and otherwise that byte |
| `Shlex.SplitOfPieces` | internal/config/shlex.go:26-75 | a line of separators, plain and escaped bytes and quoted runs gives its words; one that goes on with an open quote or a bare backslash fails with that |
| `Shlex.EveryLineIsPieces` | internal/config/shlex.go:26-75 | every line is such pieces, alone or followed by an open quote or a bare backslash |
| `Shlex.SplitSucceedsOnPieces` | internal/config/shlex.go:26-75 | so splitting succeeds on exactly the lines that are whole pieces, and each failure occurs on exactly the lines that end that way |
| `Shlex.SplitOfJoined` | internal/config/shlex.go:26-75 | a line that parses, a space and another line give the tokens of both in order, or the other's failure |
| `Shlex.EscapeRoundTrip` | internal/config/shlex.go:26-75 | any list of tokens, escaped byte by byte and joined with spaces, splits back into itself |
| `KvPool.PadUpTo256` | internal/config/context_size.go:107-110 | the least multiple of 256 that is at least n |
| `KvPool.SharedExactly` | internal/config/kvunified.go:44-88 | the pool is shared exactly when -np gives no number from zero up, or -kvu is on in one of four spellings and not negated |
| `KvPool.AutoIsFour` | internal/config/kvunified.go:44-117 | without -np, or with a negative one, four slots share the pool |
| `KvPool.FlagsGive` | internal/config/context_size.go:79-103 | what -np, -c and a ceiling give: the slots, the pool padded, and for one request the pool up to the ceiling or its share of a split pool |
| `KvPool.CeilingGives` | internal/config/pool_tokens.go:64-73 | without a positive -c the pool is the padded ceiling times the slots, and the window is known only with a ceiling and no -c |
| `KvPool.OversubscribedExactly` | internal/config/kvunified.go:125-142 | whenever window and pool both derive, the pool is called oversubscribed exactly when it is shared and slots times window exceeds it |
| `KvPool.OversubscribedOnFlags` | internal/config/kvunified.go:125-142 | with no more than the flags: shared, two slots or more, and no ceiling, or ceilings that together pass a pool sized by -c |
| `KvPool.OversubscribedMeansSomeLoadFails` | internal/config/kvunified.go:111-142 | a shared pool is called oversubscribed exactly when some load the server may admit, one request a slot within the window, does not fit it |
| `KvPool.WindowFitsPool` | internal/config/context_size.go:79-103 | one request's window never exceeds the pool |
| `KvPool.SplitWindowsFillPool` | internal/config/pool_tokens.go:64-73 | in a split pool slots times window is below the pool and 256 a slot, and above the pool less one a slot exactly when -c sizes the pool or padding adds less than one a slot |
| `KvPool.SplitCanLeavePoolUnused` | internal/config/pool_tokens.go:64-73 | `-np 2` with a ceiling of one token and no -c: the windows promise 2 of 256 tokens |
| `KvPool.ZeroSlotsExample` | internal/config/context_size.go:79-103 | `-np 0` with `-c 256` reaches the division by zero slots |
| `KvPool.ZeroSlotsDivides` | internal/config/context_size.go:79-103 | the division by zero slots is reached exactly with an explicit zero, a split pool and a positive -c |
| `Labels.NewLabelIndex` | internal/adapter/hfwrap/labels.go:36-52 | there is an index unless no file has a path, and it holds exactly the names there are, each with its files in order |
| `Labels.LookUp` | internal/adapter/hfwrap/labels.go:59-82 | counting the matches in a loop finds the file the specification finds |
| `Labels.SizeMatchesExactly` | internal/adapter/hfwrap/labels.go:98-107 | a total matches a size from 99 to 101 hundredths of it |
| `Labels.NamedExactly` | internal/adapter/hfwrap/labels.go:36-52 | the files of a name are exactly those listed under it, in the order of the listing |
| `Labels.LabelBaseIsName` | internal/adapter/hfwrap/labels.go:87-94 | the name in a path or label is what follows its last separator of either kind, shortened or not |
| `Labels.LookupFindsOnlyFile` | internal/adapter/hfwrap/labels.go:59-82 | a bar is named exactly when one listed file can be it: the only one of its name, or the only one of several that has its size; and then after that file |
| `Labels.ShortenedLabelKeepsName` | internal/adapter/hfwrap/labels.go:87-94 | a label cut down to the end of a path names the same file as long as a separator is left in it |
| `Aggregator.Aggregator.constructor` | internal/adapter/hfwrap/aggregator.go:52-59 | an aggregator starts with no bar, its index made of the listing |
| `Aggregator.Aggregator.Route` | internal/adapter/hfwrap/aggregator.go:118-133 | a line's bar is the one of its named path, or the label's last one unless the line is the next bar's, or a new one |
| `Aggregator.Aggregator.Tick` | internal/adapter/hfwrap/aggregator.go:79-113 | a line moves its bar, both counters and what the sink is told, each as the bar's old values say |
| `Aggregator.Aggregator.OnProgress` | internal/adapter/hfwrap/aggregator.go:65-114 | a line changes its own bar alone; a banner or a line without a label changes none |
| `Aggregator.ToldNamesBar` | internal/adapter/hfwrap/aggregator.go:79-113 | whatever a line tells names its bar's path, a bar's first line tells its total, and bytes told are those it grew by |
| `Aggregator.BannerTells` | internal/adapter/hfwrap/aggregator.go:65-78 | a banner tells the number of files it gives, or its total, and moves no bar |
| `Aggregator.Aggregator.FlushIncomplete` | internal/adapter/hfwrap/aggregator.go:152-162 | bars under way that a path or a label still stands for are completed without the sink being told |
| `AggregatorRuns.EveryByteIsAccounted` | internal/adapter/hfwrap/aggregator.go:65-162 | after any run the byte counter is the sum of the final counts of every bar ever made, the sink was told of exactly those bytes for each path, and was told done at most once a completed bar, exactly once without a flush |
| `AggregatorRuns.EveryTotalIsAccounted` | internal/adapter/hfwrap/aggregator.go:79-97 | when no total shown is negative, the total counter is the sum of the bars' totals and of what the sink was told of |
| `AggregatorRuns.NamedRunShows` | internal/adapter/hfwrap/aggregator.go:118-133 | when the listing names every bar, each file has exactly one bar, and it shows the file's highest count and highest total |
| `AggregatorRuns.TameKeyShows` | internal/adapter/hfwrap/aggregator.go:65-146 | in any run the bar of a file, or of a label that never restarts, shows its highest readings and whether it is over, whatever the other lines are |
| `AggregatorRuns.BytesAreHighestCounts` | internal/adapter/hfwrap/aggregator.go:65-146 | when every bar is named or its label never restarts, the byte counter is the sum over files and labels of the highest count any line of each showed |
| `AggregatorRuns.InterleavingDoesNotMatter` | internal/adapter/hfwrap/aggregator.go:65-146 | so two runs of the same lines count the same bytes, as long as neither order makes a label restart |
| `AggregatorRuns.NamedInterleavingDoesNotMatter` | internal/adapter/hfwrap/aggregator.go:65-133 | and in any order at all when the listing names every bar |
| `AggregatorRuns.LabelHasOneBarExactly` | internal/adapter/hfwrap/aggregator.go:118-146 | whatever the other lines are, a label has exactly one bar if and only if it had a line and none rewound below the highest count so far, or counted to another total after the highest was met or a flush |
| `AggregatorRuns.PiecesCutAtRestarts` | internal/adapter/hfwrap/aggregator.go:118-146 | the run cut at a label's restarts: its lines count up in each piece, and each piece but the first opens with a line that rewinds below the piece before, or counts to another total after that was met |
| `AggregatorRuns.LabelShowsLastPiece` | internal/adapter/hfwrap/aggregator.go:65-146 | in any run a label's bar shows the highest readings since its last restart |
| `AggregatorRuns.LabelBarsArePieces` | internal/adapter/hfwrap/aggregator.go:118-146 | and there has been a bar for each piece, once the label had a line |
| `AggregatorRuns.LabelBytesAreSumOfPeaks` | internal/adapter/hfwrap/aggregator.go:65-146 | which counted together the highest counts of the pieces |
| `AggregatorRuns.LabelBytesAreHighestCount` | internal/adapter/hfwrap/aggregator.go:65-146 | that is the label's highest count if and only if no two pieces have one above zero, and so when none of its lines restarts |
| `AggregatorRuns.DoneOnceWhenReached` | internal/adapter/hfwrap/aggregator.go:109-162 | then a file is told done at most once, only if its highest count met its highest total at some moment, and without a flush exactly if |
| `AggregatorRuns.UnnamedInterleavingMatters` | internal/adapter/hfwrap/aggregator.go:118-146 | three lines of one unnamed label and one total count 9 bytes in an order that rewinds, and 5 in one that does not |
| `TokenBucket.TokenBucket.constructor` | internal/controlplane/ratelimit.go:45-52 | a bucket starts full |
| `TokenBucket.TokenBucket.Allow` | internal/controlplane/ratelimit.go:57-77 | a call is answered, and the bucket refilled, capped and drawn from, as the specification says; a disabled bucket is untouched |
| `TokenBucket.CallDoes` | internal/controlplane/ratelimit.go:57-77 | a call is credited the time since the last, up to the capacity, and takes a token exactly if it then finds one |
| `TokenBucket.TokensStayInBucket` | internal/controlplane/ratelimit.go:57-77 | over any calls at any times the tokens stay between none and the capacity |
| `TokenBucket.AllowedAreBounded` | internal/controlplane/ratelimit.go:57-77 | in any stretch of any run, in whatever order its times come, the calls allowed are at most the capacity and rate times the stretch's length |
| `TokenBucket.BurstIsCapacity` | internal/controlplane/ratelimit.go:57-77 | of calls at one instant exactly the first ones up to the tokens are allowed, so the bound is attained |
| `TokenBucket.SpacedCallsAreAllowed` | internal/controlplane/ratelimit.go:57-77 | with a capacity of at least one, calls a refilled token apart are all allowed, if the first finds a token |
| `TokenBucket.SpacedStretchIsAllowed` | internal/controlplane/ratelimit.go:57-77 | in any stretch of any run, begun when no call had a later time, calls a refilled token apart are all allowed after the first |
| `TokenBucket.NothingIsLost` | internal/controlplane/ratelimit.go:57-77 | while the bucket does not fill up, tokens left and calls allowed are what there was and what the time refilled, however often it is asked |
| `TokenBucket.SmallBucketAllowsNothing` | internal/controlplane/ratelimit.go:57-77 | with a smaller capacity none is |
| `TokenBucket.DisabledAllowsEverything` | internal/controlplane/ratelimit.go:57-60 | a rate of zero or less allows every call and changes nothing |
| `Fingerprint.WriteFingerprint` | internal/verify/check.go:135-152 | the loops hand the hasher the seven scalars, each closed by a zero byte, and each list closed by a one byte |
| `Fingerprint.HashedIs` | internal/verify/check.go:135-152 | the seven scalars in their order, the inclusions, a one byte, the exclusions, and another |
| `Fingerprint.HashedAgreesWithEqual` | internal/verify/check.go:106-152 | for two sources without a zero byte, one of which cannot be taken for another, the bytes are the same exactly when `Equal` holds, whatever the lengths of the lists |
| `Fingerprint.AmbiguousCollides` | internal/verify/check.go:135-152 | and any source without a zero byte that can be (an inclusion begins with a one byte and there are exclusions, or a later exclusion begins with one) hashes the same bytes as some different one, so that condition is exact |
| `Fingerprint.ZeroByteCollides` | internal/verify/check.go:135-152 | any source with a zero byte in a string hashes the same bytes as some different one |
| `Numbers.ParsePrinted` | internal/translate/transcript_prompt.go:199-213 | a number printed in decimal and read back is the number if it fits in 64 bits, and nothing otherwise |

## Left out

- HTTP handlers, JSON, headers, metrics and logging: plumbing around what is modelled.
- Glossary, background, language choice and the wording of the rules in the transcript request: the rules are an arbitrary text, and their part of the validation is not modelled.
- The table of ideographs: a parameter, so the lemmas hold for any such table.
- Invalid UTF-8: a text is a sequence of characters (in `Shlex.dfy` and `Fingerprint.dfy`, of bytes).
- Deadlines and cancellation: each reading of the clock or the context is an arbitrary function; only cancellation is assumed to last once it came.
- `Tracker.VerdictsAreEarned`: generations are assumed fresh. `Bump` runs outside the lock, so under concurrent requests the generation on disk may differ from the status's; a `Bump` that fails is not modelled.
- `Tracker.Tracker.Observe`: the record on disk is one value; partial writes and write errors are not modelled.
- `Lifecycle.Manager.MarkEngineDown`: the store of the cached liveness and the move of the phase are one step; a pass is any sequence of moves to download and loading up to its ready or its failure, and `/api/ready` is not modelled.
- `Lifecycle.RetryWakesOnlyTheParked`: parking with a timer wakes by itself; how long that takes is not modelled, and no fairness is claimed.
- `RangeDownload.HonestServer`: a `.part` left by an earlier call is assumed empty or a prefix of the version HEAD described, because the caller passes no ETag on (`internal/lifecycle/ensure.go:523-528`).
- `RangeDownload.AnyServer`: real files, rename, fsync and failing removals are not modelled; `.part` and the file are byte sequences. Nothing is claimed of the cap over several calls.
- Flag tables and the other engines' derivations: flags are a map from names to texts.
- `KvPool.OversubscribedExactly`: integers are unbounded, so products that overflow 64 bits are not modelled.
- `Labels.LookUp`: the one percent tolerance is exact; rounding of the floating-point comparison is not modelled.
- The patterns that recognise a progress line and its banner: an event carries what they found.
- `Aggregator.Aggregator.Tick`: the sink is one that takes bytes by file; the fallback for one that does not tells it the same bytes without the path.
- `TokenBucket.TokenBucket.Allow`: tokens and times are real numbers, so rounding is not modelled; the lock makes a call one step; a missing bucket behaves like a disabled one.
- SHA-256 and its cut to twelve digits: only the bytes fed to the hash are modelled.
- Progress rows, file counters and the retry counter of `internal/progress`: not modelled.
