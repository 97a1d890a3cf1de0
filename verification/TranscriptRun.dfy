/** One transcript request in progress (internal/translate/transcript_run.go): a group of turns is
    asked for, retried once, and then halved, while every turn's answer is written in place.

    The engine is any function from the number of a call to what it answers. Cancellation and the
    deadline are any functions from the number of a clock reading to what that reading says. */
module TranscriptRun {
  import opened Numbers
  import opened Prompt
  import Repeats

  datatype Reason = Unset | Unaligned | Deadline | Upstream

  /** One turn's answer. */
  datatype Result = Result(id: string, text: string, error: Reason)

  datatype Usage = Usage(prompt: int, completion: int, total: int) {
    function Add(o: Usage): Usage {
      Usage(prompt + o.prompt, completion + o.completion, total + o.total)
    }
  }

  const NO_USAGE: Usage := Usage(0, 0, 0)

  datatype Reply = Failed | Answered(text: string, truncated: bool, usage: Usage)

  datatype Engine = Engine(reply: nat -> Reply, cancelled: nat -> bool, late: nat -> bool) {
    /** A request that was cancelled stays cancelled. */
    ghost predicate Sticky() {
      forall i: nat, j: nat | i <= j :: cancelled(i) ==> cancelled(j)
    }

    /** From that reading on, each is cancelled or late. */
    ghost predicate OverFrom(c: nat) {
      forall at: nat | at >= c :: cancelled(at) || late(at)
    }
  }

  /** A validated request: the rules every call opens with, the window one conversation has
      (0 when unknown), which characters are ideographs, the turns, and what came before them. */
  datatype Plan = Plan(system: string, window: int, ideograph: char -> bool,
                       segments: seq<Segment>, context: seq<Line>)

  const MAX_CONTEXT_LINES: nat := 16

  /** One node of the retry tree. */
  datatype Task = Task(offset: nat, segments: seq<Segment>, context: seq<Line>, retry: bool, budget: nat)

  /** One call as it was made, and how many readings of the clock came before it. */
  datatype Call = Call(task: Task, system: string, user: string, reply: Reply, checks: nat)

  /** Everything a request in progress holds; log lists the calls made so far. */
  datatype Run = Run(out: seq<Result>, checks: nat, answered: nat, upstreamFails: nat,
                     usage: Usage, log: seq<Call>)

  // ---- One call ----

  datatype Outcome = Aligned(lines: seq<string>) | CutOff | Misaligned | Down

  /** What a reply to n turns amounts to. */
  function ReadReply(reply: Reply, n: nat): (o: Outcome)
    ensures o.Aligned? ==> |o.lines| == n
  {
    match reply
    case Failed => Down
    case Answered(text, truncated, _) =>
      match ParsedReply(text, n)
      case Some(lines) => Aligned(WithoutLabels(lines))
      case None =>
        if truncated then CutOff
        else if n == 1 && LoneLine(text) != "" then Aligned(WithoutLabels([LoneLine(text)]))
        else Misaligned
  }

  /** The same, with the reply's own parts. */
  lemma ReadReplyIs(reply: Reply, n: nat)
    ensures reply.Failed? ==> ReadReply(reply, n) == Down
    ensures reply.Answered? && ParsedReply(reply.text, n).Some? ==>
              ReadReply(reply, n) == Aligned(WithoutLabels(ParsedReply(reply.text, n).value))
    ensures reply.Answered? && ParsedReply(reply.text, n).None? ==>
              ReadReply(reply, n) ==
                if reply.truncated then CutOff
                else if n == 1 && LoneLine(reply.text) != "" then Aligned(WithoutLabels([LoneLine(reply.text)]))
                else Misaligned
  {
    hide ParsedReply, LoneLine, WithoutLabels;
  }

  function Asked(plan: Plan, engine: Engine, run: Run, task: Task): Run {
    var reply := engine.reply(|run.log|);
    var call := Call(task, plan.system + LeadIn(task.context), UserPrompt(task.segments), reply, run.checks);
    match reply
    case Failed => run.(log := run.log + [call], upstreamFails := run.upstreamFails + 1)
    case Answered(_, _, usage) =>
      run.(log := run.log + [call], answered := run.answered + 1, usage := run.usage.Add(usage))
  }

  function Fits(plan: Plan, leadIn: string, user: string, budget: nat): bool {
    plan.window <= 0
    || Estimate(plan.system, plan.ideograph) + Estimate(leadIn, plan.ideograph)
       + Estimate(user, plan.ideograph) + budget <= plan.window
  }

  // ---- Writing answers ----

  predicate Covers(task: Task, i: int) {
    task.offset <= i < task.offset + |task.segments|
  }

  function Marked(out: seq<Result>, task: Task, reason: Reason): (r: seq<Result>)
    ensures |r| == |out|
  {
    seq(|out|, i requires 0 <= i < |out| => if Covers(task, i) then out[i].(error := reason) else out[i])
  }

  function Filled(out: seq<Result>, task: Task, lines: seq<string>, ideograph: char -> bool): (r: seq<Result>)
    requires |lines| == |task.segments|
    ensures |r| == |out|
  {
    seq(|out|, i requires 0 <= i < |out| =>
          if Covers(task, i) then out[i].(text := Repeats.CollapsedText(lines[i - task.offset], ideograph))
          else out[i])
  }

  // ---- The tree ----

  function TrailingContext(segments: seq<Segment>): seq<Line> {
    var tail := if |segments| > MAX_CONTEXT_LINES then segments[|segments| - MAX_CONTEXT_LINES..] else segments;
    seq(|tail|, i requires 0 <= i < |tail| => Line(tail[i].speaker, tail[i].text))
  }

  function LeftHalf(task: Task): Task {
    var left := task.segments[..|task.segments| / 2];
    task.(segments := left, budget := MaxTokens(left))
  }

  function RightHalf(task: Task): Task {
    var mid := |task.segments| / 2;
    var right := task.segments[mid..];
    task.(offset := task.offset + mid, segments := right,
    context := TrailingContext(task.segments[..mid]), budget := MaxTokens(right))
  }

  function Retried(task: Task, outcome: Outcome): Task {
    task.(retry := false, budget := if outcome.CutOff? then 2 * task.budget else task.budget)
  }

  /** The run after a task, and whether the whole request failed on it. */
  function Translated(plan: Plan, engine: Engine, run: Run, task: Task): (Run, bool)
    decreases |task.segments|, if task.retry then 1 else 0, 2
  {
    if task.segments == [] then (run, false)
    else
      var now := run.(checks := run.checks + 1);
      if engine.cancelled(run.checks) || engine.late(run.checks) then
        (now.(out := Marked(now.out, task, Deadline)), false)
      else if |task.segments| > 1 && !Fits(plan, LeadIn(task.context), UserPrompt(task.segments), task.budget) then
        Halved(plan, engine, now, task)
      else
        var asked := Asked(plan, engine, now, task);
        var outcome := ReadReply(engine.reply(|now.log|), |task.segments|);
        if outcome.Aligned? then
          (asked.(out := Filled(asked.out, task, outcome.lines, plan.ideograph)), false)
        else AfterFailure(plan, engine, asked, task, outcome)
  }

  /** What follows a call that gave no lines. */
  function AfterFailure(plan: Plan, engine: Engine, asked: Run, task: Task, outcome: Outcome): (Run, bool)
    requires task.segments != []
    decreases |task.segments|, if task.retry then 1 else 0, 1
  {
    var now := asked.(checks := asked.checks + 1);
    if engine.cancelled(asked.checks) then (now.(out := Marked(now.out, task, Deadline)), false)
    else if now.answered == 0 && now.upstreamFails >= 2 then (now, true)
    else if task.retry then Translated(plan, engine, now, Retried(task, outcome))
    else if |task.segments| == 1 then
      (now.(out := Marked(now.out, task, if outcome.Down? then Upstream else Unaligned)), false)
    else Halved(plan, engine, now, task)
  }

  function Halved(plan: Plan, engine: Engine, run: Run, task: Task): (Run, bool)
    requires |task.segments| > 1
    decreases |task.segments|, 0, 0
  {
    var (left, failed) := Translated(plan, engine, run, LeftHalf(task));
    if failed then (left, true) else Translated(plan, engine, left, RightHalf(task))
  }

  function FreshRun(plan: Plan): (run: Run)
    ensures |run.out| == |plan.segments|
  {
    Run(seq(|plan.segments|, i requires 0 <= i < |plan.segments| => Result(plan.segments[i].id, "", Unset)),
        0, 0, 0, NO_USAGE, [])
  }

  function RootTask(plan: Plan): Task {
    Task(0, plan.segments, plan.context, true, MaxTokens(plan.segments))
  }

  /** A whole request. */
  function Requested(plan: Plan, engine: Engine): (Run, bool) {
    Translated(plan, engine, FreshRun(plan), RootTask(plan))
  }

  // ---- The number of calls ----

  /** What a task may cost: two calls a turn, one less when its retry is spent. */
  function CallBound(task: Task): nat {
    if task.segments == [] then 0
    else if task.retry then 2 * |task.segments| else 2 * |task.segments| - 1
  }

  lemma {:induction false} CallsAreBounded(plan: Plan, engine: Engine, run: Run, task: Task)
    ensures |Translated(plan, engine, run, task).0.log| <= |run.log| + CallBound(task)
    decreases |task.segments|, if task.retry then 2 else 1
  {
    hide LeadIn, UserPrompt, MaxTokens, Fits, ReadReply, Marked, Filled, TrailingContext;
    if task.segments != [] {
      var now := run.(checks := run.checks + 1);
      var asked := Asked(plan, engine, now, task);
      var outcome := ReadReply(engine.reply(|now.log|), |task.segments|);
      var later := asked.(checks := asked.checks + 1);
      if |task.segments| > 1 {
        HalvesAreBounded(plan, engine, now, task);
        HalvesAreBounded(plan, engine, later, task);
      }
      if task.retry {
        CallsAreBounded(plan, engine, later, Retried(task, outcome));
      }
    }
  }

  lemma {:induction false} HalvesAreBounded(plan: Plan, engine: Engine, run: Run, task: Task)
    requires |task.segments| > 1
    ensures |Halved(plan, engine, run, task).0.log|
            <= |run.log| + if task.retry then CallBound(task) else CallBound(task) - 1
    decreases |task.segments|, 0
  {
    hide MaxTokens, TrailingContext;
    var left := Translated(plan, engine, run, LeftHalf(task));
    CallsAreBounded(plan, engine, run, LeftHalf(task));
    if !left.1 {
      CallsAreBounded(plan, engine, left.0, RightHalf(task));
    }
  }

  /** An engine that answers every call with nothing, and no window, clock or cancellation in the way. */
  ghost predicate SaysNothing(plan: Plan, engine: Engine) {
    && plan.window <= 0
    && forall k: nat :: engine.reply(k).Answered? && engine.reply(k).text == "" && !engine.reply(k).truncated
                        && !engine.cancelled(k) && !engine.late(k)
  }

  lemma NothingIsMisaligned(reply: Reply, n: nat)
    requires reply.Answered? && reply.text == "" && !reply.truncated && n > 0
    ensures ReadReply(reply, n) == Misaligned
  {
    assert RawLines("") == [""];
    HeadingAnswersNothing(0);
    assert [""][..0] == [];
    assert FirstAnswer([""], 0) == "";
  }

  /** The bound is met: such an engine is called that many times. */
  lemma {:induction false} CallBoundIsMet(plan: Plan, engine: Engine, run: Run, task: Task)
    requires SaysNothing(plan, engine) && (run.answered == 0 ==> run.upstreamFails == 0)
    ensures var (after, failed) := Translated(plan, engine, run, task);
            !failed && |after.log| == |run.log| + CallBound(task) && (after.answered == 0 ==> after.upstreamFails == 0)
    decreases |task.segments|, if task.retry then 2 else 1
  {
    hide LeadIn, UserPrompt, MaxTokens, ReadReply, Marked, Filled, TrailingContext;
    if task.segments != [] {
      var now := run.(checks := run.checks + 1);
      var asked := Asked(plan, engine, now, task);
      var outcome := ReadReply(engine.reply(|now.log|), |task.segments|);
      var later := asked.(checks := asked.checks + 1);
      NothingIsMisaligned(engine.reply(|now.log|), |task.segments|);
      if task.retry {
        CallBoundIsMet(plan, engine, later, Retried(task, outcome));
      } else if |task.segments| > 1 {
        var left := Translated(plan, engine, later, LeftHalf(task));
        CallBoundIsMet(plan, engine, later, LeftHalf(task));
        CallBoundIsMet(plan, engine, left.0, RightHalf(task));
        assert Halved(plan, engine, later, task) == Translated(plan, engine, left.0, RightHalf(task));
      }
    }
  }

  // ---- What a task leaves alone ----

  /** b is a later state of the run a. */
  ghost predicate Extends(a: Run, b: Run) {
    && |a.out| == |b.out| && a.log <= b.log && a.answered <= b.answered && a.checks <= b.checks
    && forall i | 0 <= i < |a.out| :: a.out[i].id == b.out[i].id
  }

  /** Ids never change, and no turn outside the task is touched. */
  lemma {:induction false} OthersAreKept(plan: Plan, engine: Engine, run: Run, task: Task)
    ensures var (after, _) := Translated(plan, engine, run, task);
            Extends(run, after)
            && forall i | 0 <= i < |run.out| && !Covers(task, i) :: after.out[i] == run.out[i]
    decreases |task.segments|, if task.retry then 2 else 1
  {
    hide LeadIn, UserPrompt, MaxTokens, Fits, ReadReply, TrailingContext, Marked, Filled, AfterFailure;
    if task.segments != [] {
      var now := run.(checks := run.checks + 1);
      var asked := Asked(plan, engine, now, task);
      var outcome := ReadReply(engine.reply(|now.log|), |task.segments|);
      MarkedKeepsOthers(now.out, task, Deadline);
      if outcome.Aligned? {
        FilledKeepsOthers(asked.out, task, outcome.lines, plan.ideograph);
      } else {
        OthersAfterFailure(plan, engine, asked, task, outcome);
      }
      if |task.segments| > 1 {
        HalvesKeepOthers(plan, engine, now, task);
      }
    }
  }

  lemma {:induction false} OthersAfterFailure(plan: Plan, engine: Engine, asked: Run, task: Task, outcome: Outcome)
    requires task.segments != []
    ensures var (after, _) := AfterFailure(plan, engine, asked, task, outcome);
            Extends(asked, after)
            && forall i | 0 <= i < |asked.out| && !Covers(task, i) :: after.out[i] == asked.out[i]
    decreases |task.segments|, if task.retry then 2 else 1, 0
  {
    hide MaxTokens, TrailingContext, Marked, Translated;
    var later := asked.(checks := asked.checks + 1);
    MarkedKeepsOthers(later.out, task, Deadline);
    MarkedKeepsOthers(later.out, task, if outcome.Down? then Upstream else Unaligned);
    if task.retry {
      OthersAreKept(plan, engine, later, Retried(task, outcome));
    } else if |task.segments| > 1 {
      HalvesKeepOthers(plan, engine, later, task);
    }
  }

  lemma MarkedKeepsOthers(out: seq<Result>, task: Task, reason: Reason)
    ensures forall i | 0 <= i < |out| :: Marked(out, task, reason)[i].id == out[i].id
    ensures forall i | 0 <= i < |out| && !Covers(task, i) :: Marked(out, task, reason)[i] == out[i]
  {
  }

  lemma FilledKeepsOthers(out: seq<Result>, task: Task, lines: seq<string>, ideograph: char -> bool)
    requires |lines| == |task.segments|
    ensures forall i | 0 <= i < |out| :: Filled(out, task, lines, ideograph)[i].id == out[i].id
    ensures forall i | 0 <= i < |out| && !Covers(task, i) :: Filled(out, task, lines, ideograph)[i] == out[i]
  {
  }

  lemma {:induction false} HalvesKeepOthers(plan: Plan, engine: Engine, run: Run, task: Task)
    requires |task.segments| > 1
    ensures var (after, _) := Halved(plan, engine, run, task);
            Extends(run, after)
            && forall i | 0 <= i < |run.out| && !Covers(task, i) :: after.out[i] == run.out[i]
    decreases |task.segments|, 0
  {
    hide MaxTokens, TrailingContext;
    var left := Translated(plan, engine, run, LeftHalf(task));
    OthersAreKept(plan, engine, run, LeftHalf(task));
    if !left.1 {
      OthersAreKept(plan, engine, left.0, RightHalf(task));
    }
  }

  // ---- An engine that is not there ----

  /** While no call has been answered, at most one has failed, or two and the request was cancelled;
      and a task without a retry comes after some call. */
  ghost predicate Healthy(engine: Engine, run: Run, retry: bool) {
    && |run.log| == run.answered + run.upstreamFails
    && (run.answered == 0 ==> run.upstreamFails <= 1
                              || (run.upstreamFails == 2 && engine.cancelled(run.checks)
                                  && engine.cancelled(run.log[1].checks)))
    && (!retry ==> run.log != [])
  }

  /** A request fails only when no call was ever answered, and then after exactly two calls, the second of which was
      not followed by a cancellation. */
  lemma {:induction false} OutageIsBounded(plan: Plan, engine: Engine, run: Run, task: Task)
    requires engine.Sticky() && Healthy(engine, run, task.retry)
    ensures var (after, failed) := Translated(plan, engine, run, task);
            if failed then after.answered == 0 && after.upstreamFails == 2 && |after.log| == 2
                           && !engine.cancelled(after.log[1].checks)
            else Healthy(engine, after, task.retry)
    decreases |task.segments|, if task.retry then 2 else 1
  {
    hide LeadIn, UserPrompt, MaxTokens, Fits, ParsedReply, LoneLine, WithoutLabels, TrailingContext, Marked, Filled;
    if task.segments != [] {
      var now := run.(checks := run.checks + 1);
      assert engine.cancelled(run.checks) ==> engine.cancelled(now.checks);
      if !engine.cancelled(run.checks) && !engine.late(run.checks) {
        var asked := Asked(plan, engine, now, task);
        var outcome := ReadReply(engine.reply(|now.log|), |task.segments|);
        OutageAfterFailure(plan, engine, asked, task, outcome);
        if |task.segments| > 1 {
          OutageInHalves(plan, engine, now, task);
        }
      }
    }
  }

  lemma {:induction false} OutageAfterFailure(plan: Plan, engine: Engine, asked: Run, task: Task, outcome: Outcome)
    requires engine.Sticky() && task.segments != []
    requires |asked.log| == asked.answered + asked.upstreamFails
    requires asked.log != [] && asked.log[|asked.log| - 1].checks == asked.checks
    requires asked.answered == 0 ==> asked.upstreamFails <= 2
    ensures var (after, failed) := AfterFailure(plan, engine, asked, task, outcome);
            if failed then after.answered == 0 && after.upstreamFails == 2 && |after.log| == 2
                           && !engine.cancelled(after.log[1].checks)
            else Healthy(engine, after, task.retry)
    decreases |task.segments|, if task.retry then 2 else 1, 0
  {
    hide LeadIn, UserPrompt, Fits, MaxTokens, TrailingContext, Marked, ReadReply;
    var later := asked.(checks := asked.checks + 1);
    assert engine.cancelled(asked.checks) ==> engine.cancelled(later.checks);
    if !engine.cancelled(asked.checks) && !(later.answered == 0 && later.upstreamFails >= 2) {
      if task.retry {
        OutageIsBounded(plan, engine, later, Retried(task, outcome));
      } else if |task.segments| > 1 {
        OutageInHalves(plan, engine, later, task);
      }
    }
  }

  lemma {:induction false} OutageInHalves(plan: Plan, engine: Engine, run: Run, task: Task)
    requires |task.segments| > 1 && engine.Sticky() && Healthy(engine, run, task.retry)
    ensures var (after, failed) := Halved(plan, engine, run, task);
            if failed then after.answered == 0 && after.upstreamFails == 2 && |after.log| == 2
                           && !engine.cancelled(after.log[1].checks)
            else Healthy(engine, after, task.retry)
    decreases |task.segments|, 0
  {
    hide MaxTokens, TrailingContext;
    var left := Translated(plan, engine, run, LeftHalf(task));
    OutageIsBounded(plan, engine, run, LeftHalf(task));
    if !left.1 {
      OutageIsBounded(plan, engine, left.0, RightHalf(task));
    }
  }

  // ---- The counters ----

  function AnsweredIn(log: seq<Call>): nat {
    if log == [] then 0 else AnsweredIn(log[..|log| - 1]) + if log[|log| - 1].reply.Answered? then 1 else 0
  }

  function UsageOf(log: seq<Call>): Usage {
    if log == [] then NO_USAGE
    else
      var before := UsageOf(log[..|log| - 1]);
      var last := log[|log| - 1].reply;
      if last.Answered? then
        Usage(before.prompt + last.usage.prompt, before.completion + last.usage.completion,
              before.total + last.usage.total)
      else before
  }

  /** Each counter is the count, and the usage the sum, over the calls made. */
  ghost predicate Accounted(run: Run) {
    run.answered == AnsweredIn(run.log) && run.upstreamFails == |run.log| - run.answered
    && run.usage == UsageOf(run.log)
  }

  lemma AskedAccounts(plan: Plan, engine: Engine, run: Run, task: Task)
    requires Accounted(run)
    ensures Accounted(Asked(plan, engine, run, task))
  {
    hide LeadIn, UserPrompt;
    var log := Asked(plan, engine, run, task).log;
    assert log[..|log| - 1] == run.log;
  }

  lemma {:induction false} CountersAddUp(plan: Plan, engine: Engine, run: Run, task: Task)
    requires Accounted(run)
    ensures Accounted(Translated(plan, engine, run, task).0)
    decreases |task.segments|, if task.retry then 2 else 1
  {
    hide LeadIn, UserPrompt, MaxTokens, Fits, ReadReply, Marked, Filled, TrailingContext, AnsweredIn, UsageOf;
    if task.segments != [] {
      var now := run.(checks := run.checks + 1);
      var asked := Asked(plan, engine, now, task);
      var outcome := ReadReply(engine.reply(|now.log|), |task.segments|);
      var later := asked.(checks := asked.checks + 1);
      AskedAccounts(plan, engine, now, task);
      if |task.segments| > 1 {
        CountersAddUpInHalves(plan, engine, now, task);
        CountersAddUpInHalves(plan, engine, later, task);
      }
      if task.retry {
        CountersAddUp(plan, engine, later, Retried(task, outcome));
      }
    }
  }

  lemma {:induction false} CountersAddUpInHalves(plan: Plan, engine: Engine, run: Run, task: Task)
    requires |task.segments| > 1 && Accounted(run)
    ensures Accounted(Halved(plan, engine, run, task).0)
    decreases |task.segments|, 0
  {
    hide MaxTokens, TrailingContext, Accounted;
    var left := Translated(plan, engine, run, LeftHalf(task));
    CountersAddUp(plan, engine, run, LeftHalf(task));
    if !left.1 {
      CountersAddUp(plan, engine, left.0, RightHalf(task));
    }
  }

  lemma {:induction false} NoneAnswered(log: seq<Call>)
    ensures AnsweredIn(log) == 0 <==> forall k | 0 <= k < |log| :: log[k].reply.Failed?
  {
    if log != [] {
      NoneAnswered(log[..|log| - 1]);
      assert forall k | 0 <= k < |log| - 1 :: log[k] == log[..|log| - 1][k];
    }
  }

  // ---- Where every answer comes from ----

  /** The call was shown turn i, and text is what its reply gives on the line numbered with
      the turn's place in the call (or on the lone line of a one-turn call). */
  ghost predicate Gives(call: Call, i: nat, text: string, ideograph: char -> bool) {
    && Covers(call.task, i)
    && var o := ReadReply(call.reply, |call.task.segments|);
       o.Aligned? && text == Repeats.CollapsedText(o.lines[i - call.task.offset], ideograph)
  }

  /** The call was for turn i alone. */
  predicate Alone(call: Call, i: nat) {
    call.task.offset == i && |call.task.segments| == 1
  }

  /** A turn's answer holds a text some call gave for it, or a reason that is true of the run. */
  ghost predicate Justified(plan: Plan, engine: Engine, run: Run, i: nat)
    requires i < |run.out|
  {
    var r := run.out[i];
    match r.error
    case Unset => r.text != "" && exists k :: 0 <= k < |run.log| && Gives(run.log[k], i, r.text, plan.ideograph)
    case Deadline => r.text == "" && exists at: nat :: at < run.checks && (engine.cancelled(at) || engine.late(at))
    case Unaligned =>
      r.text == "" && exists k :: 0 <= k < |run.log| && Alone(run.log[k], i) && run.log[k].reply.Answered?
                                  && !ReadReply(run.log[k].reply, 1).Aligned?
    case Upstream =>
      r.text == "" && exists j, k :: 0 <= j < k < |run.log| && run.log[j].reply.Answered?
                                     && Alone(run.log[k], i) && run.log[k].reply.Failed?
  }

  /** A justified answer stays justified while the run goes on elsewhere. */
  lemma JustifiedLater(plan: Plan, engine: Engine, a: Run, b: Run, i: nat)
    requires i < |a.out| && Extends(a, b) && a.out[i] == b.out[i] && Justified(plan, engine, a, i)
    ensures Justified(plan, engine, b, i)
  {
    hide Gives, ReadReply;
    assert forall k | 0 <= k < |a.log| :: a.log[k] == b.log[k];
  }

  ghost predicate Unanswered(run: Run, task: Task) {
    && task.offset + |task.segments| <= |run.out|
    && forall i: nat | Covers(task, i) :: run.out[i].text == "" && run.out[i].error == Unset
  }

  ghost predicate AllJustified(plan: Plan, engine: Engine, run: Run, task: Task)
    requires task.offset + |task.segments| <= |run.out|
  {
    forall i: nat | Covers(task, i) :: Justified(plan, engine, run, i)
  }

  /** The lines a reply is read as all say something. */
  lemma AlignedLinesSay(reply: Reply, n: nat, i: nat)
    requires ReadReply(reply, n).Aligned? && i < n
    ensures ReadReply(reply, n).lines[i] != ""
  {
    match reply
    case Failed =>
    case Answered(text, truncated, _) =>
      ReplyLinesUp(text, n);
      match ParsedReply(text, n)
      case Some(lines) =>
        WithoutLabelsKeeps(lines);
      case None =>
        WithoutLabelsKeeps([LoneLine(text)]);
  }

  lemma FillJustifies(plan: Plan, engine: Engine, run: Run, task: Task)
    requires Unanswered(run, task)
    requires ReadReply(engine.reply(|run.log|), |task.segments|).Aligned?
    ensures var asked := Asked(plan, engine, run, task);
            var lines := ReadReply(engine.reply(|run.log|), |task.segments|).lines;
            AllJustified(plan, engine, asked.(out := Filled(asked.out, task, lines, plan.ideograph)), task)
  {
    hide LeadIn, UserPrompt, ReadReply;
    var asked := Asked(plan, engine, run, task);
    var reply := engine.reply(|run.log|);
    var lines := ReadReply(reply, |task.segments|).lines;
    var after := asked.(out := Filled(asked.out, task, lines, plan.ideograph));
    forall i: nat | Covers(task, i)
      ensures Justified(plan, engine, after, i)
    {
      AlignedLinesSay(reply, |task.segments|, i - task.offset);
      Repeats.CollapsedTextKeeps(lines[i - task.offset], plan.ideograph);
      assert Gives(after.log[|run.log|], i, after.out[i].text, plan.ideograph);
    }
  }

  lemma DeadlineJustifies(plan: Plan, engine: Engine, run: Run, task: Task, at: nat)
    requires Unanswered(run, task) && at < run.checks && (engine.cancelled(at) || engine.late(at))
    ensures AllJustified(plan, engine, run.(out := Marked(run.out, task, Deadline)), task)
  {
  }

  /** Every turn of a task that does not fail the request ends with a justified answer. */
  lemma {:induction false} AnswersAreJustified(plan: Plan, engine: Engine, run: Run, task: Task)
    requires engine.Sticky() && Healthy(engine, run, task.retry) && Accounted(run) && Unanswered(run, task)
    ensures var (after, failed) := Translated(plan, engine, run, task);
            |after.out| == |run.out| && (!failed ==> AllJustified(plan, engine, after, task))
    decreases |task.segments|, if task.retry then 2 else 1
  {
    hide LeadIn, UserPrompt, MaxTokens, Fits, ReadReply, TrailingContext, Marked, Filled, Justified, Gives,
         AnsweredIn, UsageOf;
    if task.segments != [] {
      var now := run.(checks := run.checks + 1);
      if engine.cancelled(run.checks) || engine.late(run.checks) {
        DeadlineJustifies(plan, engine, now, task, run.checks);
      } else {
        var asked := Asked(plan, engine, now, task);
        var outcome := ReadReply(engine.reply(|now.log|), |task.segments|);
        if outcome.Aligned? {
          FillJustifies(plan, engine, now, task);
        } else {
          JustifiedAfterFailure(plan, engine, now, task);
        }
        if |task.segments| > 1 {
          JustifiedInHalves(plan, engine, now, task);
        }
      }
    }
  }

  lemma {:induction false} JustifiedAfterFailure(plan: Plan, engine: Engine, run: Run, task: Task)
    requires engine.Sticky() && Unanswered(run, task) && task.segments != []
    requires Accounted(run) && (!task.retry ==> run.log != [])
    requires run.answered == 0 ==> run.upstreamFails <= 1
    requires !ReadReply(engine.reply(|run.log|), |task.segments|).Aligned?
    ensures var outcome := ReadReply(engine.reply(|run.log|), |task.segments|);
            var (after, failed) := AfterFailure(plan, engine, Asked(plan, engine, run, task), task, outcome);
            |after.out| == |run.out| && (!failed ==> AllJustified(plan, engine, after, task))
    decreases |task.segments|, if task.retry then 2 else 1, 0
  {
    hide LeadIn, UserPrompt, MaxTokens, TrailingContext, Justified, Gives, ReadReply, AnsweredIn, UsageOf;
    AskedAccounts(plan, engine, run, task);
    var asked := Asked(plan, engine, run, task);
    var outcome := ReadReply(engine.reply(|run.log|), |task.segments|);
    var later := asked.(checks := asked.checks + 1);
    if engine.cancelled(asked.checks) {
      DeadlineJustifies(plan, engine, later, task, asked.checks);
    } else if !(later.answered == 0 && later.upstreamFails >= 2) {
      if task.retry {
        AnswersAreJustified(plan, engine, later, Retried(task, outcome));
      } else if |task.segments| > 1 {
        JustifiedInHalves(plan, engine, later, task);
      } else {
        LoneFailureJustifies(plan, engine, run, task);
      }
    }
  }

  lemma LoneFailureJustifies(plan: Plan, engine: Engine, run: Run, task: Task)
    requires Unanswered(run, task) && |task.segments| == 1 && Accounted(run)
    requires !ReadReply(engine.reply(|run.log|), 1).Aligned?
    requires ReadReply(engine.reply(|run.log|), 1).Down? ==> Asked(plan, engine, run, task).answered > 0
    ensures var asked := Asked(plan, engine, run, task);
            var reason := if ReadReply(engine.reply(|run.log|), 1).Down? then Upstream else Unaligned;
            AllJustified(plan, engine, asked.(checks := asked.checks + 1, out := Marked(asked.out, task, reason)), task)
  {
    hide LeadIn, UserPrompt;
    var asked := Asked(plan, engine, run, task);
    var call := asked.log[|run.log|];
    assert Alone(call, task.offset) && call.reply == engine.reply(|run.log|);
    if call.reply.Failed? {
      NoneAnswered(run.log);
      var j :| 0 <= j < |run.log| && run.log[j].reply.Answered?;
      assert asked.log[j] == run.log[j];
    }
  }

  lemma {:induction false} JustifiedInHalves(plan: Plan, engine: Engine, run: Run, task: Task)
    requires |task.segments| > 1
    requires engine.Sticky() && Healthy(engine, run, task.retry) && Accounted(run) && Unanswered(run, task)
    ensures var (after, failed) := Halved(plan, engine, run, task);
            |after.out| == |run.out| && (!failed ==> AllJustified(plan, engine, after, task))
    decreases |task.segments|, 0
  {
    hide MaxTokens, TrailingContext, Translated, Justified, AnsweredIn, UsageOf;
    CountersAddUp(plan, engine, run, LeftHalf(task));
    var left := Translated(plan, engine, run, LeftHalf(task));
    AnswersAreJustified(plan, engine, run, LeftHalf(task));
    OutageIsBounded(plan, engine, run, LeftHalf(task));
    OthersAreKept(plan, engine, run, LeftHalf(task));
    if !left.1 {
      var right := Translated(plan, engine, left.0, RightHalf(task));
      AnswersAreJustified(plan, engine, left.0, RightHalf(task));
      OthersAreKept(plan, engine, left.0, RightHalf(task));
      if !right.1 {
        forall i: nat | Covers(task, i)
          ensures Justified(plan, engine, right.0, i)
        {
          if Covers(LeftHalf(task), i) {
            JustifiedLater(plan, engine, left.0, right.0, i);
          } else {
            assert Covers(RightHalf(task), i);
          }
        }
      }
    }
  }

  // ---- What every call was shown and allowed ----

  /** The lead-in of a group: the caller's own context for the first, otherwise one to sixteen
      turns ending exactly where the group starts. */
  ghost predicate LeadInOk(plan: Plan, offset: nat, context: seq<Line>)
    requires offset <= |plan.segments|
  {
    if offset == 0 then context == plan.context
    else
      && 1 <= |context| <= MAX_CONTEXT_LINES && |context| <= offset
      && forall j | 0 <= j < |context| ::
           context[j] == Line(plan.segments[offset - |context| + j].speaker, plan.segments[offset - |context| + j].text)
  }

  /** The same group was already asked for and its reply was cut off. */
  ghost predicate WasCutOff(log: seq<Call>, task: Task) {
    exists k :: 0 <= k < |log| && log[k].task.offset == task.offset && log[k].task.segments == task.segments
                && log[k].task.retry && ReadReply(log[k].reply, |task.segments|).CutOff?
  }

  /** A task is a stretch of the request's turns with the lead-in and the budget due to it:
      its own base, or exactly twice that, after its retry was spent on a reply cut off. */
  ghost predicate TaskOk(plan: Plan, log: seq<Call>, task: Task) {
    && task.offset + |task.segments| <= |plan.segments|
    && task.segments == plan.segments[task.offset..task.offset + |task.segments|]
    && (task.segments != [] ==> LeadInOk(plan, task.offset, task.context))
    && (task.budget == MaxTokens(task.segments)
        || (task.budget == 2 * MaxTokens(task.segments) && !task.retry && WasCutOff(log, task)))
  }

  /** Call k put its task to the engine, in a prompt that fits the window along with the reply
      it is allowed unless it was for one turn. */
  ghost predicate CallOk(plan: Plan, engine: Engine, log: seq<Call>, k: nat)
    requires k < |log|
  {
    var c := log[k];
    && TaskOk(plan, log[..k], c.task) && c.task.segments != []
    && c.system == plan.system + LeadIn(c.task.context) && c.user == UserPrompt(c.task.segments)
    && c.reply == engine.reply(k)
    && (|c.task.segments| > 1 && plan.window > 0
        ==> Estimate(c.system + c.user, plan.ideograph) + c.task.budget <= plan.window)
  }

  ghost predicate CallsOk(plan: Plan, engine: Engine, log: seq<Call>) {
    forall k | 0 <= k < |log| :: CallOk(plan, engine, log, k)
  }

  lemma TaskOkLater(plan: Plan, log: seq<Call>, more: seq<Call>, task: Task)
    requires TaskOk(plan, log, task) && log <= more
    ensures TaskOk(plan, more, task)
  {
    hide MaxTokens, LeadInOk, ReadReply;
    assert forall k | 0 <= k < |log| :: log[k] == more[k];
  }

  lemma FittingPrompt(plan: Plan, leadIn: string, user: string, budget: nat)
    requires Fits(plan, leadIn, user, budget) && plan.window > 0
    ensures Estimate(plan.system + leadIn + user, plan.ideograph) + budget <= plan.window
  {
    EstimateIsSubadditive(plan.system, leadIn, plan.ideograph);
    EstimateIsSubadditive(plan.system + leadIn, user, plan.ideograph);
  }

  lemma AskedOk(plan: Plan, engine: Engine, run: Run, task: Task)
    requires CallsOk(plan, engine, run.log) && TaskOk(plan, run.log, task) && task.segments != []
    requires |task.segments| == 1
             || Fits(plan, LeadIn(task.context), UserPrompt(task.segments), task.budget)
    ensures CallsOk(plan, engine, Asked(plan, engine, run, task).log)
  {
    hide LeadIn, UserPrompt, Estimate, TaskOk;
    var log := Asked(plan, engine, run, task).log;
    forall k | 0 <= k < |log|
      ensures CallOk(plan, engine, log, k)
    {
      if k < |run.log| {
        assert CallOk(plan, engine, run.log, k) && log[..k] == run.log[..k];
      } else {
        assert log[..k] == run.log;
        if plan.window > 0 && |task.segments| > 1 {
          FittingPrompt(plan, LeadIn(task.context), UserPrompt(task.segments), task.budget);
        }
      }
    }
  }

  lemma RetriedOk(plan: Plan, engine: Engine, run: Run, task: Task)
    requires TaskOk(plan, run.log, task) && task.retry
    ensures var outcome := ReadReply(engine.reply(|run.log|), |task.segments|);
            TaskOk(plan, Asked(plan, engine, run, task).log, Retried(task, outcome))
  {
    hide LeadIn, UserPrompt, MaxTokens, ReadReply, LeadInOk;
    var log := Asked(plan, engine, run, task).log;
    var outcome := ReadReply(engine.reply(|run.log|), |task.segments|);
    assert log[|run.log|].task == task && log[|run.log|].reply == engine.reply(|run.log|);
    if outcome.CutOff? {
      assert WasCutOff(log, Retried(task, outcome));
    }
  }

  /** The last turns of a stretch are the lead-in of what follows it. */
  lemma TrailingOk(plan: Plan, offset: nat, before: seq<Segment>)
    requires before != [] && offset + |before| <= |plan.segments|
    requires forall i | 0 <= i < |before| :: before[i] == plan.segments[offset + i]
    ensures LeadInOk(plan, offset + |before|, TrailingContext(before))
  {
    var context := TrailingContext(before);
    var skip := |before| - |context|;
    forall j | 0 <= j < |context|
      ensures context[j] == Line(plan.segments[offset + |before| - |context| + j].speaker,
                                 plan.segments[offset + |before| - |context| + j].text)
    {
      assert before[skip + j] == plan.segments[offset + (skip + j)];
    }
  }

  lemma HalvesOk(plan: Plan, log: seq<Call>, task: Task)
    requires TaskOk(plan, log, task) && |task.segments| > 1
    ensures TaskOk(plan, log, LeftHalf(task)) && TaskOk(plan, log, RightHalf(task))
  {
    hide MaxTokens, WasCutOff, TrailingContext, LeadInOk;
    var mid := |task.segments| / 2;
    var offset := task.offset + mid;
    assert task.segments == plan.segments[task.offset..task.offset + |task.segments|];
    assert LeftHalf(task).segments == plan.segments[task.offset..offset];
    assert RightHalf(task).segments == task.segments[mid..];
    assert RightHalf(task).segments == plan.segments[offset..task.offset + |task.segments|];
    TrailingOk(plan, task.offset, LeftHalf(task).segments);
  }

  /** Every call a task leads to is put as it should be. */
  lemma {:induction false} PromptsAreOk(plan: Plan, engine: Engine, run: Run, task: Task)
    requires CallsOk(plan, engine, run.log) && TaskOk(plan, run.log, task)
    ensures CallsOk(plan, engine, Translated(plan, engine, run, task).0.log)
    decreases |task.segments|, if task.retry then 2 else 1
  {
    hide LeadIn, UserPrompt, MaxTokens, Fits, ReadReply, Marked, Filled, TaskOk, CallsOk, TrailingContext;
    if task.segments != [] && !engine.cancelled(run.checks) && !engine.late(run.checks) {
      var now := run.(checks := run.checks + 1);
      if |task.segments| > 1 && !Fits(plan, LeadIn(task.context), UserPrompt(task.segments), task.budget) {
        PromptsInHalves(plan, engine, now, task);
      } else {
        var asked := Asked(plan, engine, now, task);
        var outcome := ReadReply(engine.reply(|now.log|), |task.segments|);
        var later := asked.(checks := asked.checks + 1);
        AskedOk(plan, engine, now, task);
        TaskOkLater(plan, now.log, asked.log, task);
        if task.retry {
          RetriedOk(plan, engine, now, task);
          PromptsAreOk(plan, engine, later, Retried(task, outcome));
        } else if |task.segments| > 1 {
          PromptsInHalves(plan, engine, later, task);
        }
      }
    }
  }

  lemma {:induction false} PromptsInHalves(plan: Plan, engine: Engine, run: Run, task: Task)
    requires |task.segments| > 1
    requires CallsOk(plan, engine, run.log) && TaskOk(plan, run.log, task)
    ensures CallsOk(plan, engine, Halved(plan, engine, run, task).0.log)
    decreases |task.segments|, 0
  {
    hide MaxTokens, TaskOk, CallsOk, Translated, TrailingContext;
    HalvesOk(plan, run.log, task);
    var left := Translated(plan, engine, run, LeftHalf(task));
    PromptsAreOk(plan, engine, run, LeftHalf(task));
    if !left.1 {
      OthersAreKept(plan, engine, run, LeftHalf(task));
      TaskOkLater(plan, run.log, left.0.log, RightHalf(task));
      PromptsAreOk(plan, engine, left.0, RightHalf(task));
    }
  }

  // ---- When calls are made ----

  /** The call gave no lines. */
  predicate Missed(c: Call) {
    !ReadReply(c.reply, |c.task.segments|).Aligned?
  }

  /** How many readings came before whatever followed the call: one more if it gave no lines. */
  function Readings(c: Call): nat {
    c.checks + if Missed(c) then 1 else 0
  }

  /** The reading just before call k was neither cancelled nor late, and came after all readings of the calls
      before. */
  ghost predicate Timely(engine: Engine, log: seq<Call>, k: nat)
    requires k < |log|
  {
    && log[k].checks > 0 && !engine.cancelled(log[k].checks - 1) && !engine.late(log[k].checks - 1)
    && forall j | 0 <= j < k :: Readings(log[j]) < log[k].checks
  }

  ghost predicate TimelyRun(engine: Engine, run: Run) {
    forall k | 0 <= k < |run.log| :: Timely(engine, run.log, k) && Readings(run.log[k]) <= run.checks
  }

  lemma AskedTimely(plan: Plan, engine: Engine, run: Run, task: Task)
    requires TimelyRun(engine, run) && !engine.cancelled(run.checks) && !engine.late(run.checks)
    ensures var now := run.(checks := run.checks + 1);
            var asked := Asked(plan, engine, now, task);
            var call := asked.log[|run.log|];
            && call.task == task && call.reply == engine.reply(|run.log|)
            && call.checks == asked.checks == run.checks + 1
            && TimelyRun(engine, if Missed(call) then asked.(checks := asked.checks + 1) else asked)
  {
    hide LeadIn, UserPrompt, ReadReply, Missed;
    var now := run.(checks := run.checks + 1);
    var asked := Asked(plan, engine, now, task);
    forall k | 0 <= k < |asked.log|
      ensures Timely(engine, asked.log, k)
    {
      assert forall j | 0 <= j <= k && j < |run.log| :: asked.log[j] == run.log[j];
      assert k < |run.log| ==> Timely(engine, run.log, k);
    }
  }

  /** No call is made on a cancelled or late reading. */
  lemma {:induction false} CallsAreTimely(plan: Plan, engine: Engine, run: Run, task: Task)
    requires TimelyRun(engine, run)
    ensures TimelyRun(engine, Translated(plan, engine, run, task).0)
    decreases |task.segments|, if task.retry then 2 else 1
  {
    hide LeadIn, UserPrompt, MaxTokens, Fits, ReadReply, Marked, Filled, TrailingContext, Timely, Readings;
    if task.segments != [] && !engine.cancelled(run.checks) && !engine.late(run.checks) {
      var now := run.(checks := run.checks + 1);
      var asked := Asked(plan, engine, now, task);
      var outcome := ReadReply(engine.reply(|now.log|), |task.segments|);
      var later := asked.(checks := asked.checks + 1);
      AskedTimely(plan, engine, run, task);
      if |task.segments| > 1 {
        TimelyInHalves(plan, engine, now, task);
      }
      if !outcome.Aligned? {
        if task.retry {
          CallsAreTimely(plan, engine, later, Retried(task, outcome));
        } else if |task.segments| > 1 {
          TimelyInHalves(plan, engine, later, task);
        }
      }
    }
  }

  lemma {:induction false} TimelyInHalves(plan: Plan, engine: Engine, run: Run, task: Task)
    requires |task.segments| > 1 && TimelyRun(engine, run)
    ensures TimelyRun(engine, Halved(plan, engine, run, task).0)
    decreases |task.segments|, 0
  {
    hide MaxTokens, TrailingContext, TimelyRun;
    var left := Translated(plan, engine, run, LeftHalf(task));
    CallsAreTimely(plan, engine, run, LeftHalf(task));
    if !left.1 {
      CallsAreTimely(plan, engine, left.0, RightHalf(task));
    }
  }

  // ---- What every answer is ----

  /** The call gave turn i a text. */
  predicate GivenBy(c: Call, i: int) {
    Covers(c.task, i) && !Missed(c)
  }

  /** The call was the last try for turn i alone, gave no lines, and was not followed by a cancellation. */
  predicate SettledBy(engine: Engine, c: Call, i: int) {
    c.task.offset == i && |c.task.segments| == 1 && !c.task.retry && Missed(c) && !engine.cancelled(c.checks)
  }

  ghost predicate Given(log: seq<Call>, since: nat, i: int) {
    exists k :: since <= k < |log| && GivenBy(log[k], i)
  }

  ghost predicate SettledWith(engine: Engine, log: seq<Call>, since: nat, i: int, failed: bool) {
    exists k :: since <= k < |log| && SettledBy(engine, log[k], i) && log[k].reply.Failed? == failed
  }

  /** That reading was cancelled or late, and no call for turn i was made after it. */
  ghost predicate Stops(engine: Engine, log: seq<Call>, since: nat, at: nat, i: int) {
    (engine.cancelled(at) || engine.late(at)) &&
    forall k | since <= k < |log| && Covers(log[k].task, i) :: log[k].checks <= at
  }

  /** What turn i has got from the calls since then and the readings since start: a text exactly if some call
      gave one; a reason of its own exactly if its last try missed; and the deadline exactly if there was
      neither, and then some reading stopped it. */
  ghost predicate AnswerIs(engine: Engine, log: seq<Call>, since: nat, start: nat, checks: nat, r: Result, i: int) {
    && (r.text != "" <==> Given(log, since, i))
    && (r.error == Unaligned <==> SettledWith(engine, log, since, i, false))
    && (r.error == Upstream <==> SettledWith(engine, log, since, i, true))
    && (r.error == Deadline <==> !Given(log, since, i) && !SettledWith(engine, log, since, i, false)
                                 && !SettledWith(engine, log, since, i, true))
    && (r.error == Deadline ==> exists at: nat :: start <= at < checks && Stops(engine, log, since, at, i))
  }

  /** Every turn of the task has what it got. */
  ghost predicate AnswersAre(engine: Engine, run: Run, since: nat, start: nat, task: Task)
    requires task.offset + |task.segments| <= |run.out|
  {
    forall i: nat | Covers(task, i) :: AnswerIs(engine, run.log, since, start, run.checks, run.out[i], i)
  }

  /** The call neither gave turn i a text nor settled it. */
  predicate Passes(engine: Engine, c: Call, i: int) {
    !GivenBy(c, i) && !SettledBy(engine, c, i)
  }

  /** More calls before and after make no difference to turn i when they pass it by. */
  lemma AnswerStays(engine: Engine, log: seq<Call>, more: seq<Call>, since: nat, from: nat, start: nat, first: nat,
                    checks: nat, last: nat, r: Result, i: int)
    requires from <= since <= |log| && log <= more && first <= start && checks <= last
    requires AnswerIs(engine, log, since, start, checks, r, i)
    requires forall k | from <= k < since ::
               Passes(engine, log[k], i) && (Covers(log[k].task, i) ==> log[k].checks <= start)
    requires forall k | |log| <= k < |more| :: !Covers(more[k].task, i)
    ensures AnswerIs(engine, more, from, first, last, r, i)
  {
    hide Missed, Covers;
    assert forall k | 0 <= k < |log| :: more[k] == log[k];
    forall k | |log| <= k < |more|
      ensures Passes(engine, more[k], i)
    {
      UncoveredPasses(engine, more[k], i);
    }
    GivenStays(log, more, since, from, i, engine);
    SettledStays(log, more, since, from, i, engine, false);
    SettledStays(log, more, since, from, i, engine, true);
    hide Given, SettledWith;
    if r.error == Deadline {
      var at: nat :| start <= at < checks && Stops(engine, log, since, at, i);
      assert Stops(engine, more, from, at, i);
    }
  }

  lemma UncoveredPasses(engine: Engine, c: Call, i: int)
    requires !Covers(c.task, i)
    ensures Passes(engine, c, i)
  {
  }

  lemma GivenStays(log: seq<Call>, more: seq<Call>, since: nat, from: nat, i: int, engine: Engine)
    requires from <= since <= |log| && log <= more
    requires forall k | from <= k < since || |log| <= k < |more| :: Passes(engine, more[k], i)
    ensures Given(more, from, i) <==> Given(log, since, i)
  {
    hide GivenBy, SettledBy;
    assert forall k | 0 <= k < |log| :: more[k] == log[k];
    if Given(log, since, i) {
      var k :| since <= k < |log| && GivenBy(log[k], i);
      assert GivenBy(more[k], i);
    }
  }

  lemma SettledStays(log: seq<Call>, more: seq<Call>, since: nat, from: nat, i: int, engine: Engine, failed: bool)
    requires from <= since <= |log| && log <= more
    requires forall k | from <= k < since || |log| <= k < |more| :: Passes(engine, more[k], i)
    ensures SettledWith(engine, more, from, i, failed) <==> SettledWith(engine, log, since, i, failed)
  {
    hide GivenBy, SettledBy;
    assert forall k | 0 <= k < |log| :: more[k] == log[k];
    if SettledWith(engine, log, since, i, failed) {
      var k :| since <= k < |log| && SettledBy(engine, log[k], i) && log[k].reply.Failed? == failed;
      assert SettledBy(engine, more[k], i);
    }
  }

  predicate Inside(part: Task, task: Task) {
    task.offset <= part.offset && part.offset + |part.segments| <= task.offset + |task.segments|
  }

  /** The calls from since on are for turns of the task. */
  ghost predicate CallsWithin(log: seq<Call>, since: nat, task: Task) {
    forall k | since <= k < |log| :: Inside(log[k].task, task)
  }

  /** Calls for one part of a task, followed by calls for another. */
  lemma WithinBoth(before: seq<Call>, after: seq<Call>, since: nat, a: Task, b: Task, task: Task)
    requires before <= after && CallsWithin(before, since, a) && CallsWithin(after, |before|, b)
    requires Inside(a, task) && Inside(b, task)
    ensures CallsWithin(after, since, task)
  {
    forall k | since <= k < |after|
      ensures Inside(after[k].task, task)
    {
      if k < |before| {
        assert after[k] == before[k];
      }
    }
  }

  lemma {:induction false} CallsStayWithin(plan: Plan, engine: Engine, run: Run, task: Task)
    ensures CallsWithin(Translated(plan, engine, run, task).0.log, |run.log|, task)
    decreases |task.segments|, if task.retry then 2 else 1
  {
    hide LeadIn, UserPrompt, MaxTokens, Fits, ReadReply, Marked, Filled, TrailingContext, CallsWithin;
    var now := run.(checks := run.checks + 1);
    NoneWithin(run.log, task);
    if task.segments != [] {
      var asked := Asked(plan, engine, now, task);
      var outcome := ReadReply(engine.reply(|now.log|), |task.segments|);
      OneWithin(asked.log, task);
      if |task.segments| > 1 {
        WithinHalves(plan, engine, now, task);
      }
      WithinAfterFailure(plan, engine, asked, task, outcome);
      WithinBoth(asked.log, AfterFailure(plan, engine, asked, task, outcome).0.log, |run.log|, task, task, task);
    }
    hide AfterFailure, Halved;
  }

  lemma NoneWithin(log: seq<Call>, task: Task)
    ensures CallsWithin(log, |log|, task)
  {
  }

  lemma OneWithin(log: seq<Call>, task: Task)
    requires log != [] && log[|log| - 1].task == task
    ensures CallsWithin(log, |log| - 1, task)
  {
  }

  lemma {:induction false} WithinAfterFailure(plan: Plan, engine: Engine, asked: Run, task: Task, outcome: Outcome)
    requires task.segments != []
    ensures var after := AfterFailure(plan, engine, asked, task, outcome).0;
            CallsWithin(after.log, |asked.log|, task) && asked.log <= after.log
    decreases |task.segments|, if task.retry then 2 else 1, 0
  {
    hide MaxTokens, TrailingContext, Marked, Translated, CallsWithin, Halved;
    var later := asked.(checks := asked.checks + 1);
    NoneWithin(asked.log, task);
    if task.retry {
      CallsStayWithin(plan, engine, later, Retried(task, outcome));
      OthersAreKept(plan, engine, later, Retried(task, outcome));
      WithinBoth(later.log, Translated(plan, engine, later, Retried(task, outcome)).0.log, |later.log|,
                 task, Retried(task, outcome), task);
    } else if |task.segments| > 1 {
      WithinHalves(plan, engine, later, task);
    }
  }

  lemma {:induction false} WithinHalves(plan: Plan, engine: Engine, run: Run, task: Task)
    requires |task.segments| > 1
    ensures var after := Halved(plan, engine, run, task).0;
            CallsWithin(after.log, |run.log|, task) && run.log <= after.log
    decreases |task.segments|, 0
  {
    hide MaxTokens, TrailingContext, Translated, CallsWithin;
    var left := Translated(plan, engine, run, LeftHalf(task));
    var right := Translated(plan, engine, left.0, RightHalf(task));
    CallsStayWithin(plan, engine, run, LeftHalf(task));
    OthersAreKept(plan, engine, run, LeftHalf(task));
    NoneWithin(left.0.log, RightHalf(task));
    WithinBoth(left.0.log, left.0.log, |run.log|, LeftHalf(task), RightHalf(task), task);
    if !left.1 {
      CallsStayWithin(plan, engine, left.0, RightHalf(task));
      OthersAreKept(plan, engine, left.0, RightHalf(task));
      WithinBoth(left.0.log, right.0.log, |run.log|, LeftHalf(task), RightHalf(task), task);
    }
  }

  /** A task marked on a reading, with or without one call before it. */
  lemma StoppedIs(engine: Engine, run: Run, since: nat, start: nat, task: Task, at: nat)
    requires Unanswered(run, task) && start <= at < run.checks && (engine.cancelled(at) || engine.late(at))
    requires since == |run.log| || (since + 1 == |run.log| && Missed(run.log[since]) && run.log[since].checks == at
                                    && run.log[since].task == task && engine.cancelled(at))
    ensures AnswersAre(engine, run.(out := Marked(run.out, task, Deadline)), since, start, task)
  {
    hide Missed;
    forall i: nat | Covers(task, i)
      ensures AnswerIs(engine, run.log, since, start, run.checks, Marked(run.out, task, Deadline)[i], i)
    {
      assert Stops(engine, run.log, since, at, i);
    }
  }

  lemma FilledIs(engine: Engine, run: Run, start: nat, task: Task, lines: seq<string>, ideograph: char -> bool)
    requires Unanswered(run, task) && run.log != [] && |lines| == |task.segments|
    requires var c := run.log[|run.log| - 1]; c.task == task && !Missed(c)
    requires forall i | 0 <= i < |lines| :: lines[i] != ""
    ensures AnswersAre(engine, run.(out := Filled(run.out, task, lines, ideograph)), |run.log| - 1, start, task)
  {
    hide Missed, Repeats.CollapsedText;
    var since := |run.log| - 1;
    forall i: nat | Covers(task, i)
      ensures AnswerIs(engine, run.log, since, start, run.checks, Filled(run.out, task, lines, ideograph)[i], i)
    {
      Repeats.CollapsedTextKeeps(lines[i - task.offset], ideograph);
      assert GivenBy(run.log[since], i);
    }
  }

  lemma LoneIs(engine: Engine, run: Run, start: nat, task: Task)
    requires Unanswered(run, task) && run.log != [] && |task.segments| == 1 && !task.retry
    requires var c := run.log[|run.log| - 1]; c.task == task && Missed(c) && !engine.cancelled(c.checks)
    ensures var reason := if run.log[|run.log| - 1].reply.Failed? then Upstream else Unaligned;
            AnswersAre(engine, run.(out := Marked(run.out, task, reason)), |run.log| - 1, start, task)
  {
    hide Missed;
    var since := |run.log| - 1;
    var failed := run.log[since].reply.Failed?;
    forall i: nat | Covers(task, i)
      ensures AnswerIs(engine, run.log, since, start, run.checks,
                       Marked(run.out, task, if failed then Upstream else Unaligned)[i], i)
    {
      assert SettledBy(engine, run.log[since], i);
    }
  }

  /** What every turn of a task that does not fail the request ends with. */
  lemma {:induction false} AnswersAreExact(plan: Plan, engine: Engine, run: Run, task: Task)
    requires Unanswered(run, task)
    ensures var (after, failed) := Translated(plan, engine, run, task);
            |after.out| == |run.out| && (!failed ==> AnswersAre(engine, after, |run.log|, run.checks, task))
    decreases |task.segments|, if task.retry then 2 else 1
  {
    hide LeadIn, UserPrompt, MaxTokens, Fits, ReadReply, TrailingContext, Marked, Filled, AnswersAre, Missed,
         AfterFailure, Halved;
    OthersAreKept(plan, engine, run, task);
    if task.segments == [] {
      NoTurnsAre(engine, run, |run.log|, run.checks, task);
    } else {
      var now := run.(checks := run.checks + 1);
      if engine.cancelled(run.checks) || engine.late(run.checks) {
        StoppedIs(engine, now, |run.log|, run.checks, task, run.checks);
      } else if |task.segments| > 1 && !Fits(plan, LeadIn(task.context), UserPrompt(task.segments), task.budget) {
        ExactInHalves(plan, engine, now, run.checks, task);
      } else {
        var asked := Asked(plan, engine, now, task);
        var outcome := ReadReply(engine.reply(|now.log|), |task.segments|);
        MissedIs(asked.log[|run.log|]);
        if outcome.Aligned? {
          forall i | 0 <= i < |outcome.lines|
            ensures outcome.lines[i] != ""
          {
            AlignedLinesSay(engine.reply(|now.log|), |task.segments|, i);
          }
          FilledIs(engine, asked, run.checks, task, outcome.lines, plan.ideograph);
        } else {
          ExactAfterFailure(plan, engine, now, run.checks, task);
        }
      }
    }
  }

  lemma NoTurnsAre(engine: Engine, run: Run, since: nat, start: nat, task: Task)
    requires task.segments == [] && task.offset <= |run.out|
    ensures AnswersAre(engine, run, since, start, task)
  {
  }

  lemma MissedIs(c: Call)
    ensures Missed(c) <==> !ReadReply(c.reply, |c.task.segments|).Aligned?
    ensures c.reply.Failed? <==> ReadReply(c.reply, |c.task.segments|).Down?
  {
  }

  lemma {:induction false} ExactAfterFailure(plan: Plan, engine: Engine, run: Run, start: nat, task: Task)
    requires Unanswered(run, task) && task.segments != [] && start <= run.checks
    requires !ReadReply(engine.reply(|run.log|), |task.segments|).Aligned?
    ensures var outcome := ReadReply(engine.reply(|run.log|), |task.segments|);
            var (after, failed) := AfterFailure(plan, engine, Asked(plan, engine, run, task), task, outcome);
            |after.out| == |run.out| && (!failed ==> AnswersAre(engine, after, |run.log|, start, task))
    decreases |task.segments|, if task.retry then 2 else 1, 0
  {
    hide LeadIn, UserPrompt, MaxTokens, TrailingContext, ReadReply, AnswersAre, Missed, Marked, Halved, Translated;
    var asked := Asked(plan, engine, run, task);
    var outcome := ReadReply(engine.reply(|run.log|), |task.segments|);
    var later := asked.(checks := asked.checks + 1);
    var call := asked.log[|run.log|];
    MissedIs(call);
    if engine.cancelled(asked.checks) {
      StoppedIs(engine, later, |run.log|, start, task, asked.checks);
    } else if !(later.answered == 0 && later.upstreamFails >= 2) {
      if task.retry {
        AnswersAreExact(plan, engine, later, Retried(task, outcome));
        OthersAreKept(plan, engine, later, Retried(task, outcome));
        var (after, failed) := Translated(plan, engine, later, Retried(task, outcome));
        if !failed {
          MissAddsNothing(engine, after, |run.log|, start, later.checks, Retried(task, outcome), task);
        }
      } else if |task.segments| > 1 {
        ExactInHalves(plan, engine, later, later.checks, task);
        WithinHalves(plan, engine, later, task);
        var (after, failed) := Halved(plan, engine, later, task);
        if !failed {
          MissAddsNothing(engine, after, |run.log|, start, later.checks, task, task);
        }
      } else {
        LoneIs(engine, later, start, task);
      }
    }
  }

  /** A call that missed, and was not the last try of a lone turn, makes no difference to what follows it. */
  lemma MissAddsNothing(engine: Engine, after: Run, since: nat, first: nat, start: nat, rest: Task, task: Task)
    requires since < |after.log| && task.offset + |task.segments| <= |after.out| && first <= start
    requires rest.offset == task.offset && rest.segments == task.segments
    requires AnswersAre(engine, after, since + 1, start, rest)
    requires var c := after.log[since];
             c.task == task && Missed(c) && c.checks <= start && (task.retry || |task.segments| > 1)
    ensures AnswersAre(engine, after, since, first, task)
  {
    hide Missed, AnswerIs;
    forall i: nat | Covers(task, i)
      ensures AnswerIs(engine, after.log, since, first, after.checks, after.out[i], i)
    {
      assert Covers(rest, i);
      AnswerStays(engine, after.log, after.log, since + 1, since, start, first, after.checks, after.checks,
                  after.out[i], i);
    }
  }

  lemma {:induction false} ExactInHalves(plan: Plan, engine: Engine, run: Run, start: nat, task: Task)
    requires |task.segments| > 1 && Unanswered(run, task) && start <= run.checks
    ensures var (after, failed) := Halved(plan, engine, run, task);
            |after.out| == |run.out| && (!failed ==> AnswersAre(engine, after, |run.log|, start, task))
    decreases |task.segments|, 0
  {
    hide MaxTokens, TrailingContext, Translated, AnswersAre;
    var left := Translated(plan, engine, run, LeftHalf(task));
    OthersAreKept(plan, engine, run, LeftHalf(task));
    AnswersAreExact(plan, engine, run, LeftHalf(task));
    if !left.1 {
      var right := Translated(plan, engine, left.0, RightHalf(task));
      OthersAreKept(plan, engine, left.0, RightHalf(task));
      AnswersAreExact(plan, engine, left.0, RightHalf(task));
      CallsStayWithin(plan, engine, run, LeftHalf(task));
      CallsStayWithin(plan, engine, left.0, RightHalf(task));
      if !right.1 {
        HalvesTogether(engine, run, left.0, right.0, start, task);
      }
    }
  }

  lemma HalvesTogether(engine: Engine, run: Run, left: Run, right: Run, start: nat, task: Task)
    requires |task.segments| > 1 && start <= run.checks && Extends(run, left) && Extends(left, right)
    requires task.offset + |task.segments| <= |run.out|
    requires CallsWithin(left.log, |run.log|, LeftHalf(task)) && CallsWithin(right.log, |left.log|, RightHalf(task))
    requires AnswersAre(engine, left, |run.log|, run.checks, LeftHalf(task))
    requires AnswersAre(engine, right, |left.log|, left.checks, RightHalf(task))
    requires forall i | 0 <= i < |left.out| && !Covers(RightHalf(task), i) :: right.out[i] == left.out[i]
    ensures AnswersAre(engine, right, |run.log|, start, task)
  {
    hide MaxTokens, TrailingContext, AnswerIs, Missed;
    var mid := |task.segments| / 2;
    forall i: nat | Covers(task, i)
      ensures AnswerIs(engine, right.log, |run.log|, start, right.checks, right.out[i], i)
    {
      if i < task.offset + mid {
        assert Covers(LeftHalf(task), i);
        AnswerStays(engine, left.log, right.log, |run.log|, |run.log|, run.checks, start, left.checks, right.checks,
                    left.out[i], i);
      } else {
        assert Covers(RightHalf(task), i);
        forall k | |run.log| <= k < |left.log|
          ensures !Covers(right.log[k].task, i)
        {
          assert right.log[k] == left.log[k] && Inside(left.log[k].task, LeftHalf(task));
        }
        AnswerStays(engine, right.log, right.log, |left.log|, |run.log|, left.checks, start, right.checks, right.checks,
                    right.out[i], i);
      }
    }
  }

  // ---- Why every call is made ----

  /** The task is to be tried again after this call, with twice the room if the reply was cut off. */
  predicate RetryOf(c: Call, task: Task) {
    c.task.retry && Missed(c) && task.offset == c.task.offset && task.segments == c.task.segments
    && task.context == c.task.context && !task.retry
    && task.budget == if ReadReply(c.reply, |c.task.segments|).CutOff? then 2 * c.task.budget else c.task.budget
  }

  /** The call was the last try for the group as a whole. */
  predicate LastTry(c: Call, group: Task) {
    c.task == group && !group.retry && Missed(c)
  }

  /** The prompt and the reply of a group do not fit the window. */
  predicate TooBig(plan: Plan, group: Task) {
    plan.window > 0 &&
    Estimate(plan.system, plan.ideograph) + Estimate(LeadIn(group.context), plan.ideograph)
    + Estimate(UserPrompt(group.segments), plan.ideograph) + group.budget > plan.window
  }

  /** One of the two halves of a group: the first, or the second with the last turns of the first before it. */
  predicate HalfOf(group: Task, half: Task) {
    var n := |group.segments|;
    && n > 1 && half.retry == group.retry && half.budget == 2000 + 2 * Characters(half.segments)
    && ((half.offset == group.offset && half.segments == group.segments[..n / 2] && half.context == group.context)
        || (half.offset == group.offset + n / 2 && half.segments == group.segments[n / 2..]
            && IsTail(half.context, group.segments[..n / 2])))
  }

  /** The last turns, at most sixteen, as lines. */
  predicate IsTail(context: seq<Line>, segments: seq<Segment>) {
    && |context| == (if |segments| < 16 then |segments| else 16)
    && forall j | 0 <= j < |context| ::
         var sg := segments[|segments| - |context| + j];
         context[j] == Line(sg.speaker, sg.text)
  }

  /** A task comes up for one of three reasons: it is the whole request; a call for it missed and it is owed another;
      or it is half of a group that is too big, or whose last try missed. */
  ghost predicate Due(plan: Plan, log: seq<Call>, task: Task)
    decreases |plan.segments| - |task.segments|
  {
    || task == Task(0, plan.segments, plan.context, true, 2000 + 2 * Characters(plan.segments))
    || (exists j :: 0 <= j < |log| && RetryOf(log[j], task))
    || (|task.segments| < |plan.segments| &&
        exists group: Task :: |task.segments| < |group.segments| <= |plan.segments| && HalfOf(group, task) &&
                              ((exists j :: 0 <= j < |log| && LastTry(log[j], group))
                               || (TooBig(plan, group) && Due(plan, log, group))))
  }

  ghost predicate AllDue(plan: Plan, log: seq<Call>) {
    forall k | 0 <= k < |log| :: Due(plan, log[..k], log[k].task)
                                 && (|log[k].task.segments| == 1 || !TooBig(plan, log[k].task))
  }

  lemma {:induction false} DueLater(plan: Plan, log: seq<Call>, more: seq<Call>, task: Task)
    requires log <= more && Due(plan, log, task)
    ensures Due(plan, more, task)
    decreases |plan.segments| - |task.segments|
  {
    hide RetryOf, LastTry, TooBig, HalfOf, Characters;
    assert forall k | 0 <= k < |log| :: log[k] == more[k];
    if j :| 0 <= j < |log| && RetryOf(log[j], task) {
      assert RetryOf(more[j], task);
    } else if task != Task(0, plan.segments, plan.context, true, 2000 + 2 * Characters(plan.segments)) {
      var group: Task :| |task.segments| < |group.segments| <= |plan.segments| && HalfOf(group, task) &&
                         ((exists j :: 0 <= j < |log| && LastTry(log[j], group))
                          || (TooBig(plan, group) && Due(plan, log, group)));
      if j :| 0 <= j < |log| && LastTry(log[j], group) {
        assert LastTry(more[j], group);
      } else {
        DueLater(plan, log, more, group);
      }
    }
  }

  lemma AskedDue(plan: Plan, engine: Engine, run: Run, task: Task)
    requires AllDue(plan, run.log) && Due(plan, run.log, task)
    requires |task.segments| == 1 || Fits(plan, LeadIn(task.context), UserPrompt(task.segments), task.budget)
    ensures AllDue(plan, Asked(plan, engine, run, task).log)
  {
    hide LeadIn, UserPrompt, Estimate, Due;
    var log := Asked(plan, engine, run, task).log;
    forall k | 0 <= k < |log|
      ensures Due(plan, log[..k], log[k].task) && (|log[k].task.segments| == 1 || !TooBig(plan, log[k].task))
    {
      assert log[..k] == if k < |run.log| then run.log[..k] else run.log;
      assert k < |run.log| ==> log[k] == run.log[k];
    }
  }

  lemma HalvesAreHalves(task: Task)
    requires |task.segments| > 1
    ensures HalfOf(task, LeftHalf(task)) && HalfOf(task, RightHalf(task))
  {
    var half := RightHalf(task);
    var first := task.segments[..|task.segments| / 2];
    assert IsTail(half.context, first) by {
      TrailingIsTail(first);
    }
  }

  lemma TrailingIsTail(segments: seq<Segment>)
    ensures IsTail(TrailingContext(segments), segments)
  {
  }

  /** Every call is due, and no group is asked for that is too big. */
  lemma {:induction false} CallsAreDue(plan: Plan, engine: Engine, run: Run, task: Task)
    requires AllDue(plan, run.log) && Due(plan, run.log, task) && |task.segments| <= |plan.segments|
    ensures AllDue(plan, Translated(plan, engine, run, task).0.log)
    decreases |task.segments|, if task.retry then 2 else 1
  {
    hide LeadIn, UserPrompt, MaxTokens, Fits, ReadReply, Marked, Filled, TrailingContext, Due, AllDue, Missed,
         TooBig, HalfOf;
    if task.segments != [] && !engine.cancelled(run.checks) && !engine.late(run.checks) {
      var now := run.(checks := run.checks + 1);
      if |task.segments| > 1 && !Fits(plan, LeadIn(task.context), UserPrompt(task.segments), task.budget) {
        UnfitIsTooBig(plan, task);
        DueInHalves(plan, engine, now, task);
      } else {
        var asked := Asked(plan, engine, now, task);
        var outcome := ReadReply(engine.reply(|now.log|), |task.segments|);
        var later := asked.(checks := asked.checks + 1);
        AskedDue(plan, engine, now, task);
        var call := asked.log[|run.log|];
        MissedIs(call);
        if !outcome.Aligned? {
          if task.retry {
            RetriedIsDue(plan, asked.log, task);
            CallsAreDue(plan, engine, later, Retried(task, outcome));
          } else if |task.segments| > 1 {
            assert LastTry(asked.log[|run.log|], task);
            DueInHalves(plan, engine, later, task);
          }
        }
      }
    }
  }

  lemma UnfitIsTooBig(plan: Plan, task: Task)
    requires !Fits(plan, LeadIn(task.context), UserPrompt(task.segments), task.budget)
    ensures TooBig(plan, task)
  {
  }

  lemma RetriedIsDue(plan: Plan, log: seq<Call>, task: Task)
    requires log != [] && log[|log| - 1].task == task && Missed(log[|log| - 1]) && task.retry
    ensures Due(plan, log, Retried(task, ReadReply(log[|log| - 1].reply, |task.segments|)))
  {
    hide ReadReply, Missed;
    assert RetryOf(log[|log| - 1], Retried(task, ReadReply(log[|log| - 1].reply, |task.segments|)));
  }

  lemma {:induction false} DueInHalves(plan: Plan, engine: Engine, run: Run, task: Task)
    requires AllDue(plan, run.log) && 1 < |task.segments| <= |plan.segments|
    requires (TooBig(plan, task) && Due(plan, run.log, task))
             || exists j :: 0 <= j < |run.log| && LastTry(run.log[j], task)
    ensures AllDue(plan, Halved(plan, engine, run, task).0.log)
    decreases |task.segments|, 0
  {
    hide MaxTokens, TrailingContext, Translated, TooBig, HalfOf, AllDue, LastTry;
    var left := Translated(plan, engine, run, LeftHalf(task));
    HalvesAreHalves(task);
    assert Due(plan, run.log, LeftHalf(task)) && Due(plan, run.log, RightHalf(task));
    CallsAreDue(plan, engine, run, LeftHalf(task));
    if !left.1 {
      OthersAreKept(plan, engine, run, LeftHalf(task));
      DueLater(plan, run.log, left.0.log, RightHalf(task));
      CallsAreDue(plan, engine, left.0, RightHalf(task));
    }
  }

  // ---- A whole request ----

  /** At most two calls a turn, whatever the engine answers. */
  lemma RequestCalls(plan: Plan, engine: Engine)
    ensures |Requested(plan, engine).0.log| <= 2 * |plan.segments|
  {
    CallsAreBounded(plan, engine, FreshRun(plan), RootTask(plan));
  }

  /** A request that succeeds answers every turn under its own id, each with a text a call gave
      for it or a reason true of the run. */
  lemma RequestAnswers(plan: Plan, engine: Engine)
    requires engine.Sticky() && !Requested(plan, engine).1
    ensures var run := Requested(plan, engine).0;
            |run.out| == |plan.segments|
            && forall i: nat | i < |run.out| :: run.out[i].id == plan.segments[i].id
                                                && Justified(plan, engine, run, i)
                                                && (run.out[i].text != "" <==> run.out[i].error == Unset)
  {
    hide MaxTokens, Translated, Gives, ReadReply;
    var start, task := FreshRun(plan), RootTask(plan);
    AnswersAreJustified(plan, engine, start, task);
    OthersAreKept(plan, engine, start, task);
    var run := Requested(plan, engine).0;
    forall i: nat | i < |run.out|
      ensures Justified(plan, engine, run, i) && run.out[i].id == plan.segments[i].id
    {
      assert Covers(task, i);
      assert start.out[i].id == run.out[i].id;
    }
  }

  /** Every call of a request is made on a clean reading and for a reason it has; and once every reading is
      cancelled or late, no call is made. */
  lemma RequestIsTimely(plan: Plan, engine: Engine)
    ensures var run := Requested(plan, engine).0;
            && (forall k | 0 <= k < |run.log| :: Timely(engine, run.log, k))
            && AllDue(plan, run.log)
            && forall c: nat, k | engine.OverFrom(c) && 0 <= k < |run.log| :: run.log[k].checks <= c
  {
    hide MaxTokens, Translated;
    CallsAreTimely(plan, engine, FreshRun(plan), RootTask(plan));
    assert RootTask(plan).budget == 2000 + 2 * Characters(plan.segments) by {
      BudgetIs(plan.segments);
    }
    CallsAreDue(plan, engine, FreshRun(plan), RootTask(plan));
    var log := Requested(plan, engine).0.log;
    forall c: nat, k | engine.OverFrom(c) && 0 <= k < |log|
      ensures log[k].checks <= c
    {
      assert Timely(engine, log, k);
    }
  }

  lemma BudgetIs(segments: seq<Segment>)
    ensures MaxTokens(segments) == 2000 + 2 * Characters(segments)
  {
  }

  /** Every turn of a request that does not fail ends with exactly what its calls and the clock make of it. */
  lemma RequestAnswersExactly(plan: Plan, engine: Engine)
    requires !Requested(plan, engine).1
    ensures var run := Requested(plan, engine).0;
            |run.out| == |plan.segments|
            && forall i: nat | i < |run.out| :: AnswerIs(engine, run.log, 0, 0, run.checks, run.out[i], i)
  {
    hide MaxTokens, Translated, AnswerIs;
    AnswersAreExact(plan, engine, FreshRun(plan), RootTask(plan));
    assert forall i: nat | i < |plan.segments| :: Covers(RootTask(plan), i);
  }

  /** A request fails exactly when its calls are two, both failed, and it was not cancelled after the second;
      and an engine that never answers is called at most twice. */
  lemma RequestOutage(plan: Plan, engine: Engine)
    requires engine.Sticky()
    ensures var (run, failed) := Requested(plan, engine);
            && (failed <==> |run.log| == 2 && run.log[0].reply.Failed? && run.log[1].reply.Failed?
                            && !engine.cancelled(run.log[1].checks))
            && ((forall k | 0 <= k < |run.log| :: run.log[k].reply.Failed?) ==> |run.log| <= 2)
  {
    hide MaxTokens, Translated;
    OutageIsBounded(plan, engine, FreshRun(plan), RootTask(plan));
    CountersAddUp(plan, engine, FreshRun(plan), RootTask(plan));
    NoneAnswered(Requested(plan, engine).0.log);
  }

  /** Every call of a request is put as it should be, and every counter adds up. */
  lemma RequestPrompts(plan: Plan, engine: Engine)
    ensures CallsOk(plan, engine, Requested(plan, engine).0.log)
    ensures Accounted(Requested(plan, engine).0)
  {
    hide MaxTokens, Translated, WasCutOff;
    var task := RootTask(plan);
    assert task.segments == plan.segments[0..|plan.segments|];
    PromptsAreOk(plan, engine, FreshRun(plan), task);
    CountersAddUp(plan, engine, FreshRun(plan), task);
  }

  // ---- The request as the program runs it ----

  class TranscriptRun {
    const plan: Plan
    const engine: Engine
    const systemTokens: nat
    const out: array<Result>
    var usage: Usage
    var calls: nat
    var answered: nat
    var upstreamFails: nat
    var checks: nat
    ghost var log: seq<Call>

    ghost predicate Valid()
      reads this
    {
      calls == |log| && systemTokens == Estimate(plan.system, plan.ideograph)
    }

    /** The run's fields as one value. */
    ghost function State(): Run
      reads this, out
    {
      Run(out[..], checks, answered, upstreamFails, usage, log)
    }

    constructor (plan: Plan, engine: Engine)
      ensures Valid() && fresh(out) && this.plan == plan && this.engine == engine
      ensures State() == FreshRun(plan)
    {
      this.plan, this.engine := plan, engine;
      var tokens := EstimateTokens(plan.system, plan.ideograph);
      this.systemTokens := tokens;
      var results := new Result[|plan.segments|](i requires 0 <= i < |plan.segments| =>
                                                   Result(plan.segments[i].id, "", Unset));
      this.out := results;
      this.usage, this.calls, this.answered, this.upstreamFails, this.checks := NO_USAGE, 0, 0, 0, 0;
      this.log := [];
      new;
      assert out[..] == FreshRun(plan).out;
    }

    /** ctx.Err() != nil, read once. */
    method Cancelled() returns (c: bool)
      modifies this`checks
      ensures checks == old(checks) + 1 && c == engine.cancelled(old(checks))
    {
      c := engine.cancelled(checks);
      checks := checks + 1;
    }

    method Mark(task: Task, reason: Reason)
      requires Valid() && task.offset + |task.segments| <= out.Length
      modifies out
      ensures Valid() && State() == old(State()).(out := Marked(old(State()).out, task, reason))
    {
      for i := 0 to |task.segments|
        invariant forall j | 0 <= j < out.Length ::
                    out[j] == if task.offset <= j < task.offset + i then old(out[j]).(error := reason) else old(out[j])
      {
        out[task.offset + i] := out[task.offset + i].(error := reason);
      }
      assert out[..] == Marked(old(out[..]), task, reason);
    }

    method FitsWindow(leadIn: string, user: string, budget: nat) returns (fits: bool)
      requires Valid()
      ensures fits == Fits(plan, leadIn, user, budget)
    {
      if plan.window <= 0 {
        return true;
      }
      var leadInTokens := EstimateTokens(leadIn, plan.ideograph);
      var userTokens := EstimateTokens(user, plan.ideograph);
      return systemTokens + leadInTokens + userTokens + budget <= plan.window;
    }

    method Ask(task: Task, leadIn: string, user: string) returns (outcome: Outcome)
      requires Valid() && leadIn == LeadIn(task.context) && user == UserPrompt(task.segments)
      modifies this`usage, this`calls, this`answered, this`upstreamFails, this`log
      ensures Valid() && State() == Asked(plan, engine, old(State()), task)
      ensures outcome == ReadReply(engine.reply(|old(log)|), |task.segments|)
    {
      hide LeadIn, UserPrompt, ParsedReply, LoneLine, WithoutLabels, ReadReply, Estimate;
      var reply := engine.reply(calls);
      ReadReplyIs(reply, |task.segments|);
      calls := calls + 1;
      log := log + [Call(task, plan.system + leadIn, user, reply, checks)];
      if reply.Failed? {
        upstreamFails := upstreamFails + 1;
        return Down;
      }
      answered := answered + 1;
      usage := usage.Add(reply.usage);
      var lines := ParseNumbered(reply.text, |task.segments|);
      if lines.Some? {
        var stripped := StripEchoedLabels(lines.value);
        return Aligned(stripped);
      }
      if reply.truncated {
        return CutOff;
      }
      if |task.segments| == 1 {
        var line := UnnumberedSingle(reply.text);
        if line != "" {
          var stripped := StripEchoedLabels([line]);
          return Aligned(stripped);
        }
      }
      return Misaligned;
    }

    method Fill(task: Task, lines: seq<string>)
      requires Valid() && task.offset + |task.segments| <= out.Length && |lines| == |task.segments|
      modifies out
      ensures Valid() && State() == old(State()).(out := Filled(old(State()).out, task, lines, plan.ideograph))
    {
      hide Repeats.CollapsedText;
      ghost var filled := Filled(old(out[..]), task, lines, plan.ideograph);
      for i := 0 to |lines|
        invariant forall j | 0 <= j < out.Length ::
                    out[j] == if task.offset <= j < task.offset + i then filled[j] else old(out[j])
      {
        var text := Repeats.CollapseRepeats(lines[i], plan.ideograph);
        out[task.offset + i] := out[task.offset + i].(text := text);
        assert out[task.offset + i] == filled[task.offset + i];
      }
      assert forall j | 0 <= j < out.Length && !Covers(task, j) :: filled[j] == old(out[j]);
      assert out[..] == filled;
    }

    /** Fills in one task's turns; the result says whether the whole request fails. */
    method Translate(task: Task) returns (failed: bool)
      requires Valid() && task.offset + |task.segments| <= out.Length
      modifies this`usage, this`calls, this`answered, this`upstreamFails, this`checks, this`log, out
      ensures Valid() && (State(), failed) == Translated(plan, engine, old(State()), task)
      decreases |task.segments|, if task.retry then 1 else 0, 2
    {
      hide LeadIn, UserPrompt, MaxTokens, Fits, ReadReply, Marked, Filled, TrailingContext, Estimate, FreshRun,
           AfterFailure, Halved;
      if task.segments == [] {
        return false;
      }
      var late := engine.late(checks);
      var cancelled := Cancelled();
      if cancelled || late {
        Mark(task, Deadline);
        return false;
      }
      var leadIn := TranscriptLeadIn(task.context);
      var user := TranscriptUser(task.segments);
      if |task.segments| > 1 {
        var fits := FitsWindow(leadIn, user, task.budget);
        if !fits {
          failed := Split(task);
          return;
        }
      }
      ghost var now := State();
      var outcome := Ask(task, leadIn, user);
      ghost var asked := State();
      assert (now, asked) == (old(State()).(checks := old(checks) + 1), Asked(plan, engine, now, task));
      if outcome.Aligned? {
        Fill(task, outcome.lines);
        return false;
      }
      failed := AfterFailedCall(task, outcome);
    }

    /** What follows a call that gave no lines. */
    method AfterFailedCall(task: Task, outcome: Outcome) returns (failed: bool)
      requires Valid() && task.offset + |task.segments| <= out.Length && task.segments != []
      requires !outcome.Aligned?
      modifies this`usage, this`calls, this`answered, this`upstreamFails, this`checks, this`log, out
      ensures Valid() && (State(), failed) == AfterFailure(plan, engine, old(State()), task, outcome)
      decreases |task.segments|, if task.retry then 1 else 0, 1
    {
      hide LeadIn, UserPrompt, MaxTokens, Marked, Filled, TrailingContext, Estimate, FreshRun, Translated, Halved;
      var cancelled := Cancelled();
      if cancelled {
        Mark(task, Deadline);
        return false;
      }
      if answered == 0 && upstreamFails >= 2 {
        return true;
      }
      if task.retry {
        var next := task.(retry := false);
        if outcome.CutOff? {
          next := next.(budget := 2 * task.budget);
        }
        failed := Translate(next);
        return;
      }
      if |task.segments| == 1 {
        var reason := Unaligned;
        if !outcome.Misaligned? && !outcome.CutOff? {
          reason := Upstream;
        }
        Mark(task, reason);
        return false;
      }
      failed := Split(task);
    }

    method Split(task: Task) returns (failed: bool)
      requires Valid() && task.offset + |task.segments| <= out.Length && |task.segments| > 1
      modifies this`usage, this`calls, this`answered, this`upstreamFails, this`checks, this`log, out
      ensures Valid() && (State(), failed) == Halved(plan, engine, old(State()), task)
      decreases |task.segments|, 0, 0
    {
      hide MaxTokens, TrailingContext, Translated, Estimate, FreshRun;
      var mid := |task.segments| / 2;
      var leftBudget := TranscriptMaxTokens(task.segments[..mid]);
      var left := task.(segments := task.segments[..mid], budget := leftBudget);
      failed := Translate(left);
      if failed {
        return;
      }
      var context := Trailing(task.segments[..mid]);
      var rightBudget := TranscriptMaxTokens(task.segments[mid..]);
      var right := task.(offset := task.offset + mid, segments := task.segments[mid..],
      context := context, budget := rightBudget);
      failed := Translate(right);
    }
  }

  method Trailing(segments: seq<Segment>) returns (out: seq<Line>)
    ensures out == TrailingContext(segments)
  {
    var tail := segments;
    if |tail| > MAX_CONTEXT_LINES {
      tail := tail[|tail| - MAX_CONTEXT_LINES..];
    }
    out := [];
    for i := 0 to |tail|
      invariant |out| == i && forall j | 0 <= j < i :: out[j] == Line(tail[j].speaker, tail[j].text)
    {
      out := out + [Line(tail[i].speaker, tail[i].text)];
    }
  }

  /** A request from the validated plan to the response: its answers, or nothing when it fails. */
  method HandleTranscript(plan: Plan, engine: Engine) returns (response: Option<seq<Result>>)
    ensures var (run, failed) := Requested(plan, engine);
            response == if failed then None else Some(run.out)
  {
    var run := new TranscriptRun(plan, engine);
    var budget := TranscriptMaxTokens(plan.segments);
    var failed := run.Translate(Task(0, plan.segments, plan.context, true, budget));
    if failed {
      return None;
    }
    return Some(run.out[..]);
  }
}
