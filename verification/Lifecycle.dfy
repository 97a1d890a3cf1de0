/** The two goroutines that share a model's phase (internal/lifecycle): the lifecycle loop, which runs
    ensure passes and parks between them, and the health loop, which probes the engine.

    Each use of the progress manager's lock, and each load or store of an atomic the other goroutine
    uses, is one step; a run is any interleaving of steps. In particular a phase the health loop moves
    and the flag it then stores are two steps, as they are in the program. */
module Lifecycle {
  import opened Numbers

  datatype Phase = Init | Download | Loading | Ready | Degraded | Failed

  datatype RetryOptions = RetryOptions(force: bool, level: string)

  const NO_OPTIONS: RetryOptions := RetryOptions(false, "")

  datatype ReadyState = ReadyState(alive: bool, modelExists: bool)

  /** What a probe brought: no answer, or one. */
  datatype Outcome = Unreachable | Reported(rs: ReadyState) {
    predicate Healthy() {
      Reported? && rs.alive && rs.modelExists
    }

    /** The engine is up and the model it was serving is gone. */
    predicate ModelLost() {
      Reported? && rs.alive && !rs.modelExists
    }
  }

  datatype Probe = Probe(healthy: bool, time: int)

  const DEFAULT_GRACE: int := 60

  /** The grace as configured, and whether the engine is a daemon that is up before the model is. */
  datatype Config = Config(engineDownGrace: int, aliveBeforeBoot: bool) {
    function Grace(): int {
      if engineDownGrace > 0 then engineDownGrace else DEFAULT_GRACE
    }
  }

  /** Where the lifecycle loop stands: about to begin a pass, about to clear the flag, inside the pass,
      past its ready, after its failure, or parked on the wake channel of some epoch, with or without a
      timer. */
  datatype LifePoint = AtTop | Clearing | InPass | Served | FailedPass(retriable: bool) | Parked(epoch: nat, timed: bool)

  /** Which of the two loops wrote the phase. */
  datatype Writer = ByPass | ByHealth

  /** Where the health loop stands. */
  datatype HealthPoint =
    | Idle
    | Recovering
    | Recovered
    | Relaunching(now: int, outcome: Outcome)
    | Claiming(now: int, outcome: Outcome)
    | Judging(now: int, outcome: Outcome)
    | Releasing(outcome: Outcome)
    | Asking

  /** What is only remembered about the run: how many passes began, in which of them the health loop last
      moved ready to loading and whether a pass began between that move and its flag, every probe, how
      often the loop degraded the model and asked for a pass, who wrote the phase, and whether a claim of
      the health loop's covered the loading a pass wrote when it did, and no pass has dropped it since. */
  datatype Memory = Memory(passes: nat, movedPass: nat, raced: bool, probes: seq<Probe>, degrades: nat, asks: nat,
                           phaseBy: Writer, covered: bool)

  /** The shared state, with whether the health loop was started, and the run so far. */
  datatype Sys = Sys(phase: Phase, lastError: string, relaunchLoading: bool, lastReady: Option<ReadyState>,
                     unhealthySince: Option<int>, engineReturns: nat,
                     pendingOpts: RetryOptions, epoch: nat, life: LifePoint, health: HealthPoint,
                     probing: bool, past: Memory)

  datatype Event =
    | Consume | Clear | SetPhase(phase: Phase) | Transfer | Fail(msg: string, retriable: bool) | Park(timed: bool) | Wake
    | RetryWith(opts: RetryOptions)
    | ProbeAnswered(outcome: Outcome, now: int) | HealthStep(inFlight: bool)

  // ---- The health loop ----

  function OwnsLoading(s: Sys): bool {
    s.phase == Loading && s.relaunchLoading
  }

  function ReasonFor(o: Outcome): string {
    if o.Unreachable? then "engine health probe failed"
    else "engine health probe reports the model is not being served"
  }

  function Probed(s: Sys, o: Outcome, now: int): Sys {
    var seen := s.(lastReady := if o.Reported? then Some(o.rs) else s.lastReady,
                   past := s.past.(probes := s.past.probes + [Probe(o.Healthy(), now)]));
    if o.Healthy() then
      seen.(unhealthySince := None, engineReturns := s.engineReturns + (if s.unhealthySince.Some? then 1 else 0),
      health := Recovering)
    else
      seen.(unhealthySince := if s.unhealthySince.Some? then s.unhealthySince else Some(now),
      health := Relaunching(now, o))
  }

  /** The cached answer once the engine is called down. */
  function MarkedDown(ready: Option<ReadyState>): Option<ReadyState> {
    match ready
    case None => Some(ReadyState(false, false))
    case Some(rs) => if rs.alive then Some(ReadyState(false, rs.modelExists)) else ready
  }

  function Judged(cfg: Config, s: Sys, now: int, o: Outcome): Sys {
    if s.unhealthySince.Some? && now - s.unhealthySince.value < cfg.Grace() then s.(health := Idle)
    else
      var down := s.(lastReady := MarkedDown(s.lastReady));
      if s.phase == Ready || OwnsLoading(s) then
        down.(phase := Degraded, lastError := ReasonFor(o), health := Releasing(o),
        past := s.past.(phaseBy := ByHealth, degrades := s.past.degrades + 1))
      else down.(health := Idle)
  }

  /** The health loop's next step; inFlight is what asking the tracker would say there. */
  function HealthStepped(cfg: Config, s: Sys, inFlight: bool): Sys {
    match s.health
    case Idle => s
    case Recovering =>
      if s.phase == Degraded || OwnsLoading(s) then
        s.(phase := Ready, lastError := "", health := Recovered, past := s.past.(phaseBy := ByHealth))
      else s.(health := Idle)
    case Recovered => s.(relaunchLoading := false, health := Idle)
    case Relaunching(now, o) =>
      if inFlight && s.phase == Ready then
        s.(phase := Loading, health := Claiming(now, o),
        past := s.past.(phaseBy := ByHealth, movedPass := s.past.passes, raced := false))
      else s.(health := Judging(now, o))
    case Claiming(now, o) => s.(relaunchLoading := true, health := Judging(now, o))
    case Judging(now, o) => Judged(cfg, s, now, o)
    case Releasing(o) =>
      s.(relaunchLoading := false, health := if o.ModelLost() && cfg.aliveBeforeBoot then Asking else Idle)
    case Asking => s.(epoch := s.epoch + 1, health := Idle, past := s.past.(asks := s.past.asks + 1))
  }

  /** How many steps the probe has left, at most. */
  function Rank(h: HealthPoint): nat {
    match h
    case Idle => 0
    case Asking => 1
    case Releasing(_) => 2
    case Judging(_, _) => 3
    case Claiming(_, _) => 4
    case Relaunching(_, _) => 5
    case Recovered => 1
    case Recovering => 2
  }

  // ---- Everything that can happen ----

  /** The claim stands, or is about to, and is not about to be given up. */
  predicate Holds(s: Sys) {
    s.health.Claiming? || (s.relaunchLoading && !s.health.Recovered? && !s.health.Releasing?)
  }

  /** Besides setPhase and fail, a file transfer announces itself as a download, and clears no error. */
  predicate WritesPhase(e: Event) {
    e.SetPhase? || e.Fail? || e.Transfer?
  }

  /** A pass that succeeds ends ready, except that of a daemon given files to load, and parks without a
      timer; one that fails parks with a timer exactly when it may be retried. */
  predicate Enabled(cfg: Config, s: Sys, e: Event) {
    match e
    case Consume => s.life == AtTop
    case Clear => s.life == Clearing
    case SetPhase(p) => s.life == InPass && p in {Download, Loading, Ready}
    case Transfer => s.life == InPass
    case Fail(_, _) => s.life in {InPass, Served}
    case Park(timed) =>
      || (!timed && (s.life == Served || (s.life == InPass && cfg.aliveBeforeBoot)))
      || s.life == FailedPass(timed)
    case Wake => s.life.Parked? && (s.life.timed || s.life.epoch < s.epoch)
    case RetryWith(_) => true
    case ProbeAnswered(_, _) => s.probing && s.health == Idle
    case HealthStep(_) => s.health != Idle
  }

  function PhaseSet(s: Sys, p: Phase): Sys {
    s.(phase := p, lastError := if p == Loading then s.lastError else "",
    life := if p == Ready then Served else InPass, probing := s.probing || p == Ready,
    past := s.past.(phaseBy := ByPass, covered := if p == Loading then Holds(s) else s.past.covered))
  }

  function Cleared(s: Sys): Sys {
    s.(relaunchLoading := false, life := InPass,
    past := s.past.(passes := s.past.passes + 1, raced := s.past.raced || s.health.Claiming?,
                    covered := s.past.covered && s.health.Claiming?))
  }

  function Next(cfg: Config, s: Sys, e: Event): Sys {
    match e
    case Consume => s.(pendingOpts := NO_OPTIONS, life := Clearing)
    case Clear => Cleared(s)
    case SetPhase(p) => PhaseSet(s, p)
    case Transfer => s.(phase := Download, past := s.past.(phaseBy := ByPass))
    case Fail(msg, retriable) =>
      s.(phase := if retriable then Degraded else Failed, lastError := msg, life := FailedPass(retriable),
      past := s.past.(phaseBy := ByPass))
    case Park(timed) => s.(life := Parked(s.epoch, timed))
    case Wake => s.(life := AtTop)
    case RetryWith(opts) => s.(pendingOpts := opts, epoch := s.epoch + 1)
    case ProbeAnswered(o, now) => Probed(s, o, now)
    case HealthStep(inFlight) => HealthStepped(cfg, s, inFlight)
  }

  predicate Allowed(cfg: Config, s: Sys, run: seq<Event>)
    decreases |run|
  {
    run == [] || (Enabled(cfg, s, run[0]) && Allowed(cfg, Next(cfg, s, run[0]), run[1..]))
  }

  function After(cfg: Config, s: Sys, run: seq<Event>): Sys
    decreases |run|
  {
    if run == [] then s else After(cfg, Next(cfg, s, run[0]), run[1..])
  }

  /** The manager as it starts: in its first phase, or ready as the last process left it. */
  function Initial(cfg: Config, restored: bool): Sys {
    Sys(if restored then Ready else Init, "", false, None, None, 0, NO_OPTIONS, 0, AtTop, Idle, cfg.aliveBeforeBoot,
        Memory(0, 0, false, [], 0, 0, ByPass, false))
  }

  // ---- What the probes alone say ----

  /** When the failing probes at the end began, if the last one failed. */
  function StretchStart(probes: seq<Probe>): Option<int> {
    if probes == [] || probes[|probes| - 1].healthy then None
    else
      var earlier := StretchStart(probes[..|probes| - 1]);
      if earlier.Some? then earlier else Some(probes[|probes| - 1].time)
  }

  /** The failing stretches a healthy probe ended. */
  function StretchesEnded(probes: seq<Probe>): nat {
    if |probes| < 2 then 0
    else
      StretchesEnded(probes[..|probes| - 1])
      + if probes[|probes| - 1].healthy && !probes[|probes| - 2].healthy then 1 else 0
  }

  /** From k on every probe failed, and k is as early as it gets. */
  predicate StretchFrom(probes: seq<Probe>, k: nat) {
    && k < |probes|
    && (forall i | k <= i < |probes| :: !probes[i].healthy)
    && (k > 0 ==> probes[k - 1].healthy)
  }

  lemma {:induction false} StretchIs(probes: seq<Probe>)
    requires StretchStart(probes).Some?
    ensures exists k: nat :: StretchFrom(probes, k) && probes[k].time == StretchStart(probes).value
  {
    var last := |probes| - 1;
    var front := probes[..last];
    if StretchStart(front).Some? {
      StretchIs(front);
      var k: nat :| StretchFrom(front, k) && front[k].time == StretchStart(front).value;
      assert StretchFrom(probes, k);
    } else {
      assert StretchFrom(probes, last);
    }
  }

  // ---- What holds at every moment ----

  /** The point's probe is the last one, and it failed. */
  predicate LastFailed(probes: seq<Probe>, now: int) {
    probes != [] && !probes[|probes| - 1].healthy && probes[|probes| - 1].time == now
  }

  predicate WillAsk(cfg: Config, h: HealthPoint) {
    h.Asking? || (h.Releasing? && h.outcome.ModelLost() && cfg.aliveBeforeBoot)
  }

  ghost predicate Inv(cfg: Config, s: Sys) {
    && s.unhealthySince == StretchStart(s.past.probes)
    && s.engineReturns == StretchesEnded(s.past.probes)
    && ((s.health.Relaunching? || s.health.Claiming? || s.health.Judging?) ==> LastFailed(s.past.probes, s.health.now))
    && ((s.relaunchLoading || s.health.Claiming?)
        ==> s.past.movedPass <= s.past.passes && (s.past.movedPass == s.past.passes <==> !s.past.raced))
    && s.past.asks + (if WillAsk(cfg, s.health) then 1 else 0) <= s.past.degrades
    && (s.life.Parked? ==> s.life.epoch <= s.epoch)
    && (s.relaunchLoading || s.health != Idle || s.past.probes != [] ==> s.probing)
    && (s.phase == Loading && s.past.phaseBy == ByPass ==> (s.past.covered <==> Holds(s)))
    && (s.phase == Degraded && s.past.phaseBy == ByHealth ==> s.past.degrades > 0)
  }

  /** One more probe: a healthy one ends a stretch, a failing one begins or prolongs it. */
  lemma StretchGrows(probes: seq<Probe>, p: Probe)
    ensures StretchStart(probes + [p]) ==
              if p.healthy then None else if StretchStart(probes).Some? then StretchStart(probes) else Some(p.time)
    ensures StretchesEnded(probes + [p]) ==
              StretchesEnded(probes) + if p.healthy && StretchStart(probes).Some? then 1 else 0
  {
    var more := probes + [p];
    assert more[..|more| - 1] == probes;
    if probes != [] {
      assert more[|more| - 2] == probes[|probes| - 1];
    }
    StretchKnown(probes);
  }

  lemma StretchKnown(probes: seq<Probe>)
    ensures StretchStart(probes).Some? <==> probes != [] && !probes[|probes| - 1].healthy
  {
  }

  lemma ProbeKeeps(cfg: Config, s: Sys, o: Outcome, now: int)
    requires Inv(cfg, s) && s.health == Idle && s.probing
    ensures Inv(cfg, Probed(s, o, now))
  {
    hide StretchStart, StretchesEnded, Outcome.Healthy;
    StretchGrows(s.past.probes, Probe(o.Healthy(), now));
  }

  lemma JudgedKeeps(cfg: Config, s: Sys, now: int, o: Outcome)
    requires Inv(cfg, s) && s.health == Judging(now, o)
    ensures Inv(cfg, Judged(cfg, s, now, o))
  {
    hide StretchStart, StretchesEnded, ReasonFor, MarkedDown;
  }

  lemma RecoveringKeeps(cfg: Config, s: Sys, inFlight: bool)
    requires Inv(cfg, s) && (s.health.Idle? || s.health.Recovering? || s.health.Recovered?)
    ensures Inv(cfg, HealthStepped(cfg, s, inFlight))
  {
    hide StretchStart, StretchesEnded, Judged, LastFailed, Outcome.ModelLost;
  }

  lemma RelaunchingKeeps(cfg: Config, s: Sys, inFlight: bool)
    requires Inv(cfg, s) && (s.health.Relaunching? || s.health.Claiming?)
    ensures Inv(cfg, HealthStepped(cfg, s, inFlight))
  {
    hide StretchStart, StretchesEnded, Judged, LastFailed, Outcome.ModelLost;
  }

  lemma AskingKeeps(cfg: Config, s: Sys, inFlight: bool)
    requires Inv(cfg, s) && (s.health.Releasing? || s.health.Asking?)
    ensures Inv(cfg, HealthStepped(cfg, s, inFlight))
  {
    hide StretchStart, StretchesEnded, Judged, LastFailed, Outcome.ModelLost;
  }

  lemma HealthKeeps(cfg: Config, s: Sys, inFlight: bool)
    requires Inv(cfg, s)
    ensures Inv(cfg, HealthStepped(cfg, s, inFlight))
  {
    if s.health.Judging? {
      JudgedKeeps(cfg, s, s.health.now, s.health.outcome);
      hide Inv, Judged;
    } else {
      hide Inv, HealthStepped;
      if s.health.Relaunching? || s.health.Claiming? {
        RelaunchingKeeps(cfg, s, inFlight);
      } else if s.health.Releasing? || s.health.Asking? {
        AskingKeeps(cfg, s, inFlight);
      } else {
        RecoveringKeeps(cfg, s, inFlight);
      }
    }
  }

  /** Every step keeps the invariant. */
  lemma NextKeeps(cfg: Config, s: Sys, e: Event)
    requires Inv(cfg, s) && Enabled(cfg, s, e)
    ensures Inv(cfg, Next(cfg, s, e))
  {
    if e.ProbeAnswered? {
      ProbeKeeps(cfg, s, e.outcome, e.now);
    } else if e.HealthStep? {
      HealthKeeps(cfg, s, e.inFlight);
    } else {
      hide StretchStart, StretchesEnded, HealthStepped, Probed;
    }
  }

  lemma {:induction false} RunKeeps(cfg: Config, s: Sys, run: seq<Event>)
    requires Inv(cfg, s) && Allowed(cfg, s, run)
    ensures Inv(cfg, After(cfg, s, run))
    decreases |run|
  {
    hide Inv, Next, Enabled;
    if run != [] {
      NextKeeps(cfg, s, run[0]);
      RunKeeps(cfg, Next(cfg, s, run[0]), run[1..]);
    }
  }

  /** A state some run of the program reaches. */
  ghost predicate Reachable(cfg: Config, s: Sys) {
    exists restored, run :: Allowed(cfg, Initial(cfg, restored), run) && After(cfg, Initial(cfg, restored), run) == s
  }

  lemma ReachableInv(cfg: Config, s: Sys)
    requires Reachable(cfg, s)
    ensures Inv(cfg, s)
  {
    var restored, run :| Allowed(cfg, Initial(cfg, restored), run) && After(cfg, Initial(cfg, restored), run) == s;
    RunKeeps(cfg, Initial(cfg, restored), run);
  }

  lemma PrependOne(cfg: Config, s: Sys, e: Event, run: seq<Event>)
    requires Enabled(cfg, s, e) && Allowed(cfg, Next(cfg, s, e), run)
    ensures Allowed(cfg, s, [e] + run) && After(cfg, s, [e] + run) == After(cfg, Next(cfg, s, e), run)
  {
    assert ([e] + run)[1..] == run;
  }

  /** A state reached, and one more step. */
  lemma {:induction false} AppendOne(cfg: Config, s: Sys, run: seq<Event>, e: Event)
    requires Allowed(cfg, s, run) && Enabled(cfg, After(cfg, s, run), e)
    ensures Allowed(cfg, s, run + [e]) && After(cfg, s, run + [e]) == Next(cfg, After(cfg, s, run), e)
    decreases |run|
  {
    hide Next, Enabled;
    if run == [] {
      PrependOne(cfg, s, e, []);
      assert [] + [e] == [e] + [];
    } else {
      AppendOne(cfg, Next(cfg, s, run[0]), run[1..], e);
      assert run + [e] == [run[0]] + (run[1..] + [e]);
      PrependOne(cfg, s, run[0], run[1..] + [e]);
    }
  }

  lemma Step(cfg: Config, s: Sys, e: Event) returns (t: Sys)
    requires Reachable(cfg, s) && Enabled(cfg, s, e)
    ensures t == Next(cfg, s, e) && Reachable(cfg, t)
  {
    hide Next, Enabled;
    var restored, run :| Allowed(cfg, Initial(cfg, restored), run) && After(cfg, Initial(cfg, restored), run) == s;
    AppendOne(cfg, Initial(cfg, restored), run, e);
    t := Next(cfg, s, e);
  }

  // ---- What the health loop may do to the phase ----

  lemma JudgedPhase(cfg: Config, s: Sys, now: int, o: Outcome)
    ensures Judged(cfg, s, now, o).phase != s.phase ==>
              Judged(cfg, s, now, o).phase == Degraded && (s.phase == Ready || OwnsLoading(s))
  {
    hide ReasonFor, MarkedDown;
  }

  /** The health loop never enters or leaves init, download or failed, and touches a loading phase only
      when it holds the flag, and a pass's own loading only when that was covered. When it holds the flag,
      it has itself moved ready to loading since the current pass began, exactly unless a pass began between
      that move and the flag being set. */
  lemma HealthTouchesOnlyItsPhases(cfg: Config, s: Sys, inFlight: bool)
    requires Reachable(cfg, s)
    ensures var t := HealthStepped(cfg, s, inFlight);
            t.phase != s.phase ==>
              && s.phase in {Ready, Loading, Degraded} && t.phase in {Ready, Loading, Degraded}
              && (s.phase == Loading ==> s.relaunchLoading && (s.past.movedPass == s.past.passes <==> !s.past.raced))
              && (s.phase == Loading && s.past.phaseBy == ByPass ==> s.past.covered)
              && (t.phase == Loading ==> s.phase == Ready && inFlight)
  {
    ReachableInv(cfg, s);
    if s.health.Judging? {
      JudgedPhase(cfg, s, s.health.now, s.health.outcome);
    }
    hide Reachable, StretchStart, StretchesEnded, Judged, LastFailed, WillAsk, Outcome.ModelLost;
  }

  // ---- A pass's own loading ----

  predicate HealthOnly(run: seq<Event>) {
    forall e | e in run :: e.HealthStep? || e.ProbeAnswered?
  }

  /** The phase is not written by a pass. */
  predicate NoPhaseSet(run: seq<Event>) {
    forall e | e in run :: !WritesPhase(e)
  }

  /** The health loop's next step moves a pass's own loading exactly when that is covered, and the step ends
      an outage or judges one past the grace. */
  lemma PassLoadingStep(cfg: Config, s: Sys, inFlight: bool)
    requires Inv(cfg, s) && s.phase == Loading && s.past.phaseBy == ByPass
    ensures var t := HealthStepped(cfg, s, inFlight);
            && (t.phase != Loading <==>
                  s.past.covered && (s.health == Recovering ||
                                (s.health.Judging? && s.unhealthySince.Some?
                                 && s.health.now - s.unhealthySince.value >= cfg.Grace())))
            && (t.phase == Loading ==> t.past.phaseBy == ByPass && t.past.covered == s.past.covered)
  {
    if s.health.Judging? {
      JudgedLoading(cfg, s, s.health.now, s.health.outcome);
      StretchKnown(s.past.probes);
    }
    hide StretchStart, StretchesEnded, Judged, WillAsk, Outcome.ModelLost, Config.Grace;
  }

  lemma JudgedLoading(cfg: Config, s: Sys, now: int, o: Outcome)
    requires s.phase == Loading && s.unhealthySince.Some?
    ensures var t := Judged(cfg, s, now, o);
            && (t.phase != Loading <==> s.relaunchLoading && now - s.unhealthySince.value >= cfg.Grace())
            && (t.phase == Loading ==> t.past.phaseBy == s.past.phaseBy && t.past.covered == s.past.covered)
  {
    hide ReasonFor, MarkedDown;
  }

  /** What it takes the health loop to move a covered loading: the rest of its probe, and a healthy one. */
  lemma CoveredLoadingIsMoved(cfg: Config, s: Sys) returns (run: seq<Event>)
    requires Inv(cfg, s) && s.phase == Loading && s.past.phaseBy == ByPass && s.past.covered
    ensures HealthOnly(run) && Allowed(cfg, s, run) && After(cfg, s, run).phase != Loading
    decreases Rank(s.health)
  {
    hide Inv;
    if s.health == Idle {
      var probe := ProbeAnswered(Reported(ReadyState(true, true)), 0);
      var t := Next(cfg, s, probe);
      IdleIsCovered(cfg, s);
      assert Next(cfg, t, HealthStep(false)).phase == Ready;
      PrependOne(cfg, t, HealthStep(false), []);
      PrependOne(cfg, s, probe, [HealthStep(false)] + []);
      run := [probe] + ([HealthStep(false)] + []);
    } else {
      var t := HealthStepped(cfg, s, false);
      var rest: seq<Event> := [];
      NextKeeps(cfg, s, HealthStep(false));
      PassLoadingStep(cfg, s, false);
      StepsDown(cfg, s);
      hide HealthStepped;
      if t.phase == Loading {
        rest := CoveredLoadingIsMoved(cfg, t);
      }
      PrependOne(cfg, s, HealthStep(false), rest);
      run := [HealthStep(false)] + rest;
    }
  }

  lemma IdleIsCovered(cfg: Config, s: Sys)
    requires Inv(cfg, s) && s.phase == Loading && s.past.phaseBy == ByPass && s.past.covered && s.health == Idle
    ensures s.relaunchLoading && s.probing
  {
  }

  lemma StepsDown(cfg: Config, s: Sys)
    requires s.health != Idle
    ensures Rank(HealthStepped(cfg, s, false).health) < Rank(s.health)
  {
    hide ReasonFor, MarkedDown;
  }

  lemma {:induction false} UncoveredLoadingStays(cfg: Config, s: Sys, run: seq<Event>)
    requires Inv(cfg, s) && s.phase == Loading && s.past.phaseBy == ByPass && !s.past.covered
    requires NoPhaseSet(run) && Allowed(cfg, s, run)
    ensures After(cfg, s, run).phase == Loading
    decreases |run|
  {
    if run != [] {
      NextKeeps(cfg, s, run[0]);
      assert run[0] in run && forall e | e in run[1..] :: e in run;
      UncoveredStep(cfg, s, run[0]);
      hide Inv, Next, Enabled;
      UncoveredLoadingStays(cfg, Next(cfg, s, run[0]), run[1..]);
    }
  }

  lemma UncoveredStep(cfg: Config, s: Sys, e: Event)
    requires Inv(cfg, s) && s.phase == Loading && s.past.phaseBy == ByPass && !s.past.covered
    requires !WritesPhase(e)
    ensures var t := Next(cfg, s, e);
            t.phase == Loading && t.past.phaseBy == ByPass && !t.past.covered
  {
    if e.HealthStep? {
      PassLoadingStep(cfg, s, e.inFlight);
    }
    hide Inv, HealthStepped;
  }

  /** In every reachable state whose loading a pass wrote, the health loop can move it, and by itself, exactly
      when its claim covers that loading; and as long as it does not, nothing but a pass moves it. */
  lemma PassLoadingIsMovedExactly(cfg: Config, s: Sys)
    requires Reachable(cfg, s) && s.phase == Loading && s.past.phaseBy == ByPass
    ensures s.past.covered <==> Holds(s)
    ensures s.past.covered <==>
            exists run :: HealthOnly(run) && Allowed(cfg, s, run) && After(cfg, s, run).phase != Loading
    ensures s.past.covered <==>
            exists run :: NoPhaseSet(run) && Allowed(cfg, s, run) && After(cfg, s, run).phase != Loading
  {
    ReachableInv(cfg, s);
    assert s.past.covered <==> Holds(s);
    hide Inv, Reachable, Allowed, After, Holds;
    if s.past.covered {
      var run := CoveredLoadingIsMoved(cfg, s);
      assert NoPhaseSet(run);
    } else {
      forall run | (HealthOnly(run) || NoPhaseSet(run)) && Allowed(cfg, s, run)
        ensures After(cfg, s, run).phase == Loading
      {
        UncoveredLoadingStays(cfg, s, run);
      }
    }
  }

  /** So what decides is the moment a pass writes its loading: the health loop can move it exactly if the flag
      is held then, or its claim pending, and not about to be given up. */
  lemma WrittenLoadingIsMovedExactly(cfg: Config, s: Sys)
    requires Reachable(cfg, s) && Enabled(cfg, s, SetPhase(Loading))
    ensures var t := Next(cfg, s, SetPhase(Loading));
            Holds(s) <==> exists run :: NoPhaseSet(run) && Allowed(cfg, t, run) && After(cfg, t, run).phase != Loading
  {
    hide Reachable, Allowed, After, Holds;
    var t := Step(cfg, s, SetPhase(Loading));
    PassLoadingIsMovedExactly(cfg, t);
  }

  // ---- A pass's own degraded ----

  /** Some recovery is made in the run: the step after a healthy probe. */
  predicate Recovers(cfg: Config, s: Sys, run: seq<Event>)
    decreases |run|
  {
    run != [] && ((run[0].HealthStep? && s.health == Recovering) || Recovers(cfg, Next(cfg, s, run[0]), run[1..]))
  }

  lemma DegradedStep(cfg: Config, s: Sys, e: Event)
    requires s.phase == Degraded && !WritesPhase(e)
    ensures var t := Next(cfg, s, e);
            if e.HealthStep? && s.health == Recovering then t.phase == Ready && t.past.phaseBy == ByHealth
            else t.phase == Degraded && t.past.phaseBy == s.past.phaseBy
  {
    hide ReasonFor, MarkedDown;
  }

  lemma HealthKeepsItsWriting(cfg: Config, s: Sys, e: Event)
    requires s.past.phaseBy == ByHealth && !WritesPhase(e)
    ensures Next(cfg, s, e).past.phaseBy == ByHealth
  {
    hide ReasonFor, MarkedDown;
  }

  lemma {:induction false} HealthWritingStays(cfg: Config, s: Sys, run: seq<Event>)
    requires s.past.phaseBy == ByHealth && NoPhaseSet(run)
    ensures After(cfg, s, run).past.phaseBy == ByHealth
    decreases |run|
  {
    if run != [] {
      assert run[0] in run && forall e | e in run[1..] :: e in run;
      HealthKeepsItsWriting(cfg, s, run[0]);
      hide Next;
      HealthWritingStays(cfg, Next(cfg, s, run[0]), run[1..]);
    }
  }

  /** A recovery lifts a degraded whoever wrote it: over any run in which no pass writes the phase, the one a
      failed pass wrote is lifted exactly if a recovery is made, whatever else both loops do. */
  lemma {:induction false} RecoveryLiftsExactly(cfg: Config, s: Sys, run: seq<Event>)
    requires s.phase == Degraded && s.past.phaseBy == ByPass && NoPhaseSet(run)
    ensures After(cfg, s, run).phase == Degraded && After(cfg, s, run).past.phaseBy == ByPass <==> !Recovers(cfg, s, run)
    decreases |run|
  {
    if run != [] {
      assert run[0] in run && forall e | e in run[1..] :: e in run;
      DegradedStep(cfg, s, run[0]);
      hide Next;
      var t := Next(cfg, s, run[0]);
      if run[0].HealthStep? && s.health == Recovering {
        HealthWritingStays(cfg, t, run[1..]);
      } else {
        RecoveryLiftsExactly(cfg, t, run[1..]);
      }
    }
  }

  lemma JudgedDegrades(cfg: Config, s: Sys, now: int, o: Outcome)
    requires Judged(cfg, s, now, o).phase == Degraded && s.phase != Degraded
    ensures s.unhealthySince.Some? ==> now - s.unhealthySince.value >= cfg.Grace()
    ensures var ready := Judged(cfg, s, now, o).lastReady;
            ready.Some? && !ready.value.alive
  {
    hide ReasonFor, OwnsLoading;
  }

  lemma DegradeMeans(cfg: Config, s: Sys, inFlight: bool)
    requires HealthStepped(cfg, s, inFlight).phase == Degraded && s.phase != Degraded
    ensures s.health.Judging?
    ensures s.unhealthySince.Some? ==> s.health.now - s.unhealthySince.value >= cfg.Grace()
    ensures var ready := HealthStepped(cfg, s, inFlight).lastReady;
            ready.Some? && !ready.value.alive
  {
    hide Judged, Config.Grace, OwnsLoading;
    if s.health.Judging? {
      JudgedDegrades(cfg, s, s.health.now, s.health.outcome);
    }
  }

  /** The health loop writes degraded only after an unbroken stretch of failing probes, begun at the
      very first probe or after a healthy one, and lasting at least the grace. */
  lemma DegradesOnlyAfterGrace(cfg: Config, s: Sys, inFlight: bool)
    requires Reachable(cfg, s)
    requires HealthStepped(cfg, s, inFlight).phase == Degraded && s.phase != Degraded
    ensures exists k: nat :: StretchFrom(s.past.probes, k)
                             && s.past.probes[|s.past.probes| - 1].time - s.past.probes[k].time >= cfg.Grace()
    ensures var ready := HealthStepped(cfg, s, inFlight).lastReady;
            ready.Some? && !ready.value.alive
  {
    hide Reachable, StretchStart, StretchesEnded, StretchFrom, HealthStepped;
    ReachableInv(cfg, s);
    DegradeMeans(cfg, s, inFlight);
    StretchKnown(s.past.probes);
    StretchIs(s.past.probes);
  }

  /** Engine returns count the failing stretches a healthy probe ended, and the loop never asks for
      more passes than it has degraded the model. */
  lemma CountersAreRight(cfg: Config, s: Sys)
    requires Reachable(cfg, s)
    ensures s.engineReturns == StretchesEnded(s.past.probes) && s.past.asks <= s.past.degrades
  {
    ReachableInv(cfg, s);
  }

  /** Pending options change only by a retry or by the pass that takes them. */
  lemma {:induction false} PendingOptionsSurvive(cfg: Config, s: Sys, run: seq<Event>)
    requires Allowed(cfg, s, run)
    requires forall i | 0 <= i < |run| :: !run[i].RetryWith? && !run[i].Consume?
    ensures After(cfg, s, run).pendingOpts == s.pendingOpts
    decreases |run|
  {
    if run != [] {
      OptionsSurviveStep(cfg, s, run[0]);
      hide Next, Enabled;
      PendingOptionsSurvive(cfg, Next(cfg, s, run[0]), run[1..]);
    }
  }

  lemma OptionsSurviveStep(cfg: Config, s: Sys, e: Event)
    requires !e.RetryWith? && !e.Consume?
    ensures Next(cfg, s, e).pendingOpts == s.pendingOpts
  {
    hide ReasonFor, MarkedDown, OwnsLoading, Holds;
  }

  /** What it takes the health loop to lift a degraded: the rest of its probe, and a healthy one. */
  lemma DegradedIsLifted(cfg: Config, s: Sys) returns (run: seq<Event>)
    requires Inv(cfg, s) && s.phase == Degraded && s.probing
    ensures HealthOnly(run) && Allowed(cfg, s, run) && After(cfg, s, run).phase != Degraded
    decreases Rank(s.health)
  {
    hide Inv;
    if s.health == Idle {
      var probe := ProbeAnswered(Reported(ReadyState(true, true)), 0);
      var t := Next(cfg, s, probe);
      assert Next(cfg, t, HealthStep(false)).phase == Ready;
      PrependOne(cfg, t, HealthStep(false), []);
      PrependOne(cfg, s, probe, [HealthStep(false)] + []);
      run := [probe] + ([HealthStep(false)] + []);
    } else {
      var t := HealthStepped(cfg, s, false);
      var rest: seq<Event> := [];
      NextKeeps(cfg, s, HealthStep(false));
      DegradedStep(cfg, s, HealthStep(false));
      StepsDown(cfg, s);
      StillProbing(cfg, s, false);
      hide HealthStepped;
      if t.phase == Degraded {
        rest := DegradedIsLifted(cfg, t);
      }
      PrependOne(cfg, s, HealthStep(false), rest);
      run := [HealthStep(false)] + rest;
    }
  }

  lemma StillProbing(cfg: Config, s: Sys, inFlight: bool)
    ensures HealthStepped(cfg, s, inFlight).probing == s.probing
  {
    hide ReasonFor, MarkedDown, OwnsLoading;
  }

  lemma {:induction false} UnprobedDegradedStays(cfg: Config, s: Sys, run: seq<Event>)
    requires Inv(cfg, s) && s.phase == Degraded && !s.probing && NoPhaseSet(run) && Allowed(cfg, s, run)
    ensures After(cfg, s, run).phase == Degraded
    decreases |run|
  {
    if run != [] {
      NextKeeps(cfg, s, run[0]);
      assert run[0] in run && forall e | e in run[1..] :: e in run;
      assert Enabled(cfg, s, run[0]) && s.health == Idle;
      assert Next(cfg, s, run[0]).phase == Degraded && !Next(cfg, s, run[0]).probing;
      hide Inv, Next, Enabled;
      UnprobedDegradedStays(cfg, Next(cfg, s, run[0]), run[1..]);
    }
  }

  /** In every reachable state whose degraded a pass wrote, that can be lifted with no phase written by a pass
      exactly when the health loop has started. */
  lemma PassDegradedIsLiftedExactly(cfg: Config, s: Sys)
    requires Reachable(cfg, s) && s.phase == Degraded && s.past.phaseBy == ByPass
    ensures s.probing <==>
            exists run :: NoPhaseSet(run) && Allowed(cfg, s, run) && After(cfg, s, run).phase != Degraded
  {
    ReachableInv(cfg, s);
    hide Inv, Reachable, Allowed, After;
    if s.probing {
      var run := DegradedIsLifted(cfg, s);
      assert NoPhaseSet(run);
    } else {
      forall run | NoPhaseSet(run) && Allowed(cfg, s, run)
        ensures After(cfg, s, run).phase == Degraded
      {
        UnprobedDegradedStays(cfg, s, run);
      }
    }
  }

  // ---- Runs that show where more is not true ----

  lemma Start(cfg: Config) returns (s: Sys)
    ensures s == Initial(cfg, false) && Reachable(cfg, s)
  {
    s := Initial(cfg, false);
    assert Allowed(cfg, Initial(cfg, false), []) && After(cfg, Initial(cfg, false), []) == s;
  }

  lemma ParkedAndWoken(cfg: Config, s0: Sys) returns (s: Sys)
    requires Reachable(cfg, s0) && s0.life == Served
    ensures Reachable(cfg, s) && s == s0.(life := AtTop, pendingOpts := s.pendingOpts, epoch := s.epoch, past := s.past)
    ensures s.past.passes == s0.past.passes && s.past.degrades == s0.past.degrades
  {
    hide Reachable, HealthStepped, Probed, Holds;
    s := Step(cfg, s0, Park(false));
    s := Step(cfg, s, RetryWith(NO_OPTIONS));
    s := Step(cfg, s, Wake);
  }

  /** The model is ready, and an operator's retry has begun another pass. */
  lemma SecondPass(cfg: Config) returns (s: Sys)
    ensures Reachable(cfg, s) && s.life == AtTop && s.phase == Ready && s.probing && s.health == Idle
    ensures s.past.passes == 1 && s.unhealthySince == None && !s.relaunchLoading && s.past.degrades == 0
  {
    hide Reachable, HealthStepped, Probed, Holds;
    s := Start(cfg);
    s := Step(cfg, s, Consume);
    s := Step(cfg, s, Clear);
    s := Step(cfg, s, SetPhase(Loading));
    s := Step(cfg, s, SetPhase(Ready));
    s := ParkedAndWoken(cfg, s);
  }

  /** A pass can begin between the health loop's move and its flag. The flag then outlives the clearing,
      and a healthy probe takes the pass's own loading for the relaunch's and calls the model ready
      in the middle of the pass. */
  lemma RacedPassCanBeCalledReady(cfg: Config)
    ensures exists s :: Reachable(cfg, s) && s.life == InPass && s.phase == Loading && s.past.phaseBy == ByPass
                        && s.past.raced && s.past.movedPass < s.past.passes && HealthStepped(cfg, s, false).phase == Ready
  {
    hide Reachable;
    var s := SecondPass(cfg);
    s := Step(cfg, s, ProbeAnswered(Reported(ReadyState(false, false)), 0));
    s := Step(cfg, s, HealthStep(true));
    assert s.health.Claiming? && s.phase == Loading;
    s := Step(cfg, s, Consume);
    s := Step(cfg, s, Clear);
    s := ClaimedLoading(cfg, s);
  }

  /** Nor does it take a race: the flag set inside the pass, before that writes its own loading, has the same
      effect. */
  lemma UnracedPassCanBeCalledReady(cfg: Config)
    ensures exists s :: Reachable(cfg, s) && s.life == InPass && s.phase == Loading && s.past.phaseBy == ByPass
                        && !s.past.raced && s.past.movedPass == s.past.passes
                        && HealthStepped(cfg, s, false).phase == Ready
  {
    hide Reachable;
    var s := SecondPass(cfg);
    s := Step(cfg, s, Consume);
    s := Step(cfg, s, Clear);
    s := Step(cfg, s, ProbeAnswered(Reported(ReadyState(false, false)), 0));
    s := Step(cfg, s, HealthStep(true));
    assert s.health.Claiming? && s.phase == Loading;
    s := ClaimedLoading(cfg, s);
  }

  /** From a pending claim inside a pass to a pass's own loading that a healthy probe calls ready. */
  lemma ClaimedLoading(cfg: Config, s0: Sys) returns (s: Sys)
    requires Reachable(cfg, s0) && s0.life == InPass
    requires s0.health == Claiming(0, Reported(ReadyState(false, false))) && s0.unhealthySince == Some(0)
    ensures Reachable(cfg, s) && s.life == InPass && s.phase == Loading && s.past.phaseBy == ByPass
    ensures s.past.raced == s0.past.raced && s.past.movedPass == s0.past.movedPass && s.past.passes == s0.past.passes
    ensures HealthStepped(cfg, s, false).phase == Ready
  {
    hide Reachable;
    ReachableInv(cfg, s0);
    assert s0.probing;
    s := Step(cfg, s0, HealthStep(true));
    s := Step(cfg, s, HealthStep(true));
    s := LoadingBesideFlag(cfg, s);
  }

  lemma LoadingBesideFlag(cfg: Config, s0: Sys) returns (s: Sys)
    requires Reachable(cfg, s0) && s0.life == InPass && s0.health == Idle && s0.relaunchLoading && s0.probing
    ensures Reachable(cfg, s) && s.life == InPass && s.phase == Loading && s.past.phaseBy == ByPass
    ensures s.past.raced == s0.past.raced && s.past.movedPass == s0.past.movedPass && s.past.passes == s0.past.passes
    ensures HealthStepped(cfg, s, false).phase == Ready
  {
    hide Reachable;
    s := Step(cfg, s0, SetPhase(Download));
    s := Step(cfg, s, SetPhase(Loading));
    s := Step(cfg, s, ProbeAnswered(Reported(ReadyState(true, true)), 1));
  }

  /** A pass that failed, on a model the health loop has never degraded, is called ready by a healthy probe. */
  lemma FailedPassCanBeCalledReady(cfg: Config)
    ensures exists s :: Reachable(cfg, s) && s.life == FailedPass(true) && s.phase == Degraded && s.past.phaseBy == ByPass
                        && s.past.degrades == 0 && HealthStepped(cfg, s, false).phase == Ready
  {
    hide Reachable;
    var s := SecondPass(cfg);
    s := Step(cfg, s, Consume);
    s := Step(cfg, s, Clear);
    s := Step(cfg, s, Fail("", true));
    s := Step(cfg, s, ProbeAnswered(Reported(ReadyState(true, true)), 0));
  }

  /** A retry wakes the loop if and only if the loop is parked when it is made (timers apart); made while
      a pass goes on, its options wait, and parking afterwards does not see its wake. */
  lemma RetryWakesOnlyTheParked(cfg: Config, s: Sys, opts: RetryOptions, timed: bool)
    requires Reachable(cfg, s)
    ensures var t := Next(cfg, s, RetryWith(opts));
            && t.pendingOpts == opts
            && (Enabled(cfg, t, Wake) <==> s.life.Parked?)
            && (Enabled(cfg, s, Park(timed)) ==>
                  var u := Next(cfg, t, Park(timed));
                  Enabled(cfg, t, Park(timed)) && u.pendingOpts == opts && (Enabled(cfg, u, Wake) <==> timed))
  {
    ReachableInv(cfg, s);
  }

  /** A retry made inside a pass that then succeeds: the loop parks with the retry's options pending, and
      nothing wakes it. */
  lemma RetryDuringPassWakesNobody(cfg: Config)
    ensures exists s: Sys, opts: RetryOptions ::
              && Reachable(cfg, s) && s.life == InPass && opts.force
              && var asked := Next(cfg, s, RetryWith(opts));
                 var parked := Next(cfg, Next(cfg, asked, SetPhase(Ready)), Park(false));
                 Reachable(cfg, parked) && parked.life.Parked? && parked.pendingOpts == opts
                 && !Enabled(cfg, parked, Wake)
  {
    hide Reachable;
    var opts := RetryOptions(true, "");
    var s0 := Start(cfg);
    var s1 := Step(cfg, s0, Consume);
    var s := Step(cfg, s1, Clear);
    var asked := Step(cfg, s, RetryWith(opts));
    var served := Step(cfg, asked, SetPhase(Ready));
    var parked := Step(cfg, served, Park(false));
    assert parked.pendingOpts == opts && !Enabled(cfg, parked, Wake);
  }

  // ---- The manager as the program holds it ----

  /** The rest of a probe with no step of the lifecycle loop in between. */
  function Uninterrupted(cfg: Config, s: Sys, inFlight: bool): Sys
    decreases Rank(s.health)
  {
    if s.health == Idle then s else Uninterrupted(cfg, HealthStepped(cfg, s, inFlight), inFlight)
  }

  lemma Unroll(cfg: Config, s: Sys, inFlight: bool)
    ensures s.health == Idle ==> Uninterrupted(cfg, s, inFlight) == s
    ensures s.health != Idle ==>
              Uninterrupted(cfg, s, inFlight) == Uninterrupted(cfg, HealthStepped(cfg, s, inFlight), inFlight)
  {
  }

  /** The rest of a failing probe once it is judged. */
  lemma JudgingEnds(cfg: Config, s: Sys, now: int, o: Outcome, inFlight: bool)
    requires s.health == Judging(now, o) && s.unhealthySince.Some?
    ensures var down := s.(lastReady := MarkedDown(s.lastReady), health := Idle);
            var ask := o.ModelLost() && cfg.aliveBeforeBoot;
            Uninterrupted(cfg, s, inFlight) ==
              if now - s.unhealthySince.value < cfg.Grace() then s.(health := Idle)
              else if s.phase != Ready && !OwnsLoading(s) then down
              else
                down.(phase := Degraded, lastError := ReasonFor(o), relaunchLoading := false,
                epoch := s.epoch + if ask then 1 else 0,
                past := s.past.(phaseBy := ByHealth, degrades := s.past.degrades + 1,
                                asks := s.past.asks + if ask then 1 else 0))
  {
    hide Uninterrupted, ReasonFor, MarkedDown;
    var judged := HealthStepped(cfg, s, inFlight);
    var released := HealthStepped(cfg, judged, inFlight);
    Unroll(cfg, s, inFlight);
    Unroll(cfg, judged, inFlight);
    Unroll(cfg, released, inFlight);
    Unroll(cfg, HealthStepped(cfg, released, inFlight), inFlight);
  }

  // ---- What a whole probe does ----

  function Steps(inFlight: bool, n: nat): (r: seq<Event>)
    ensures |r| == n
  {
    if n == 0 then [] else [HealthStep(inFlight)] + Steps(inFlight, n - 1)
  }

  lemma {:induction false} StepsEnd(cfg: Config, s: Sys, inFlight: bool, n: nat)
    requires Rank(s.health) <= n
    ensures After(cfg, s, Steps(inFlight, n)) == Uninterrupted(cfg, s, inFlight)
    decreases n
  {
    hide HealthStepped;
    if n > 0 {
      Unroll(cfg, s, inFlight);
      StepsFall(cfg, s, inFlight);
      StepsEnd(cfg, HealthStepped(cfg, s, inFlight), inFlight, n - 1);
      Unroll(cfg, HealthStepped(cfg, s, inFlight), inFlight);
    }
  }

  lemma StepsFall(cfg: Config, s: Sys, inFlight: bool)
    ensures s.health == Idle ==> HealthStepped(cfg, s, inFlight) == s
    ensures s.health != Idle ==> Rank(HealthStepped(cfg, s, inFlight).health) < Rank(s.health)
  {
    hide ReasonFor, MarkedDown;
  }

  /** An answered probe and the steps after it. */
  function WholeProbe(o: Outcome, now: int, inFlight: bool): seq<Event> {
    [ProbeAnswered(o, now)] + Steps(inFlight, 5)
  }

  lemma WholeProbeIs(cfg: Config, s: Sys, o: Outcome, now: int, inFlight: bool)
    ensures After(cfg, s, WholeProbe(o, now, inFlight)) == Uninterrupted(cfg, Probed(s, o, now), inFlight)
  {
    hide HealthStepped;
    assert WholeProbe(o, now, inFlight)[1..] == Steps(inFlight, 5);
    StepsEnd(cfg, Probed(s, o, now), inFlight, 5);
  }

  /** In every reachable state, a healthy probe nothing interrupts makes a degraded model ready, and one whose loading
      is claimed, clearing the error and the claim; and counts a return exactly if the probe before it failed. */
  lemma HealthyProbeDoes(cfg: Config, s: Sys, rs: ReadyState, now: int, inFlight: bool)
    requires Reachable(cfg, s) && s.health == Idle && rs.alive && rs.modelExists
    ensures var t := After(cfg, s, WholeProbe(Reported(rs), now, inFlight));
            var lifts := s.phase == Degraded || (s.phase == Loading && s.relaunchLoading);
            var returned := s.past.probes != [] && !s.past.probes[|s.past.probes| - 1].healthy;
            t == s.(phase := if lifts then Ready else s.phase, lastError := if lifts then "" else s.lastError,
            relaunchLoading := s.relaunchLoading && !lifts, lastReady := Some(rs), unhealthySince := None,
            engineReturns := s.engineReturns + (if returned then 1 else 0), past := t.past)
  {
    hide Reachable, StretchStart, StretchesEnded, Uninterrupted;
    ReachableInv(cfg, s);
    StretchKnown(s.past.probes);
    hide Inv;
    WholeProbeIs(cfg, s, Reported(rs), now, inFlight);
    var probed := Probed(s, Reported(rs), now);
    Unroll(cfg, probed, inFlight);
    Unroll(cfg, HealthStepped(cfg, probed, inFlight), inFlight);
    Unroll(cfg, HealthStepped(cfg, HealthStepped(cfg, probed, inFlight), inFlight), inFlight);
    hide After;
  }

  /** Whether what fails is to be called down: the failing probes at the end, k being the first, have lasted the
      grace. */
  predicate Overdue(cfg: Config, probes: seq<Probe>, k: nat, now: int)
    requires k < |probes|
  {
    now - probes[k].time >= if cfg.engineDownGrace > 0 then cfg.engineDownGrace else 60
  }

  /** The probe is over, and nothing else is touched: neither the returns counted, nor the options, nor where the
      lifecycle loop stands. */
  predicate LeavesTheRest(s: Sys, t: Sys) {
    t.health == Idle && t.engineReturns == s.engineReturns && t.pendingOpts == s.pendingOpts && t.life == s.life
    && t.probing == s.probing
  }

  /** In every reachable state, a failing probe nothing interrupts first claims a ready model for a relaunch if one is
      outstanding; and once the failing stretch it is part of has lasted the grace, it records the engine as down and
      degrades a model that is ready, or whose loading is claimed, with the reason, dropping the claim and, for a daemon
      that lost the model, asking for a pass. It does nothing else. */
  lemma FailingProbeDoes(cfg: Config, s: Sys, o: Outcome, now: int, inFlight: bool, k: nat)
    requires Reachable(cfg, s) && s.health == Idle && !(o.Reported? && o.rs.alive && o.rs.modelExists)
    requires StretchFrom(s.past.probes + [Probe(false, now)], k)
    ensures var t := After(cfg, s, WholeProbe(o, now, inFlight));
            var probes := s.past.probes + [Probe(false, now)];
            var claims := inFlight && s.phase == Ready;
            var phase, claimed := if claims then Loading else s.phase, claims || s.relaunchLoading;
            var seen := if o.Reported? then Some(o.rs) else s.lastReady;
            var overdue := Overdue(cfg, probes, k, now);
            var degrades := overdue && (phase == Ready || (phase == Loading && claimed));
            var asks := degrades && o.Reported? && o.rs.alive && !o.rs.modelExists && cfg.aliveBeforeBoot;
            && t.phase == (if degrades then Degraded else phase)
            && t.lastError == (if !degrades then s.lastError
                               else if o.Unreachable? then "engine health probe failed"
                               else "engine health probe reports the model is not being served")
            && t.relaunchLoading == (claimed && !degrades)
            && t.lastReady == (if !overdue then seen
                               else if seen.None? then Some(ReadyState(false, false))
                               else Some(ReadyState(false, seen.value.modelExists)))
            && t.unhealthySince == Some(probes[k].time) && t.epoch == s.epoch + (if asks then 1 else 0)
            && LeavesTheRest(s, t)
  {
    var probes := s.past.probes + [Probe(false, now)];
    ProbedSince(cfg, s, o, now, k);
    FailingProbeFrom(cfg, s, o, now, inFlight, probes[k].time);
    GraceIs(cfg);
    MarkedDownIs(if o.Reported? then Some(o.rs) else s.lastReady);
    ReasonIs(o);
    hide Reachable, StretchFrom, After, MarkedDown, ReasonFor, Config.Grace, WholeProbe, Probed;
  }

  lemma ProbedSince(cfg: Config, s: Sys, o: Outcome, now: int, k: nat)
    requires Reachable(cfg, s) && !o.Healthy() && StretchFrom(s.past.probes + [Probe(false, now)], k)
    ensures var probes := s.past.probes + [Probe(false, now)];
            k < |probes| && Probed(s, o, now).unhealthySince == Some(probes[k].time)
  {
    hide Reachable, StretchesEnded, StretchFrom;
    ReachableInv(cfg, s);
    StretchGrows(s.past.probes, Probe(false, now));
    StretchIsFrom(s.past.probes + [Probe(false, now)], k);
    hide StretchStart;
  }

  lemma FailingProbeFrom(cfg: Config, s: Sys, o: Outcome, now: int, inFlight: bool, since: int)
    requires s.health == Idle && !o.Healthy() && Probed(s, o, now).unhealthySince == Some(since)
    ensures var t := After(cfg, s, WholeProbe(o, now, inFlight));
            var claims := inFlight && s.phase == Ready;
            var phase, claimed := if claims then Loading else s.phase, claims || s.relaunchLoading;
            var seen := if o.Reported? then Some(o.rs) else s.lastReady;
            var overdue := now - since >= cfg.Grace();
            var degrades := overdue && (phase == Ready || (phase == Loading && claimed));
            && t.phase == (if degrades then Degraded else phase)
            && t.lastError == (if degrades then ReasonFor(o) else s.lastError)
            && t.relaunchLoading == (claimed && !degrades)
            && t.lastReady == (if overdue then MarkedDown(seen) else seen)
            && t.unhealthySince == Some(since)
            && t.epoch == s.epoch + (if degrades && o.ModelLost() && cfg.aliveBeforeBoot then 1 else 0)
            && LeavesTheRest(s, t)
  {
    ProbedIs(s, o, now);
    hide After, Probed, MarkedDown, ReasonFor, Config.Grace, WholeProbe, Outcome.Healthy,
         Outcome.ModelLost, Uninterrupted;
    WholeProbeIs(cfg, s, o, now, inFlight);
    var p := Probed(s, o, now);
    FailingEnds(cfg, p, now, o, inFlight);
  }

  lemma ProbedIs(s: Sys, o: Outcome, now: int)
    requires !o.Healthy()
    ensures var t := Probed(s, o, now);
            t == s.(lastReady := if o.Reported? then Some(o.rs) else s.lastReady, unhealthySince := t.unhealthySince,
            health := Relaunching(now, o), past := t.past)
  {
  }

  lemma GraceIs(cfg: Config)
    ensures cfg.Grace() == if cfg.engineDownGrace > 0 then cfg.engineDownGrace else 60
  {
  }

  lemma MarkedDownIs(ready: Option<ReadyState>)
    ensures MarkedDown(ready) == if ready.None? then Some(ReadyState(false, false))
                                 else Some(ReadyState(false, ready.value.modelExists))
  {
  }

  lemma ReasonIs(o: Outcome)
    ensures ReasonFor(o) == if o.Unreachable? then "engine health probe failed"
                            else "engine health probe reports the model is not being served"
  {
  }

  lemma FailingEnds(cfg: Config, s: Sys, now: int, o: Outcome, inFlight: bool)
    requires s.health == Relaunching(now, o) && s.unhealthySince.Some?
    ensures var t := Uninterrupted(cfg, s, inFlight);
            var claims := inFlight && s.phase == Ready;
            var phase, claimed := if claims then Loading else s.phase, claims || s.relaunchLoading;
            var overdue := now - s.unhealthySince.value >= cfg.Grace();
            var degrades := overdue && (phase == Ready || (phase == Loading && claimed));
            t == s.(phase := if degrades then Degraded else phase,
            lastError := if degrades then ReasonFor(o) else s.lastError, relaunchLoading := claimed && !degrades,
            lastReady := if overdue then MarkedDown(s.lastReady) else s.lastReady, health := Idle,
            epoch := s.epoch + (if degrades && o.ModelLost() && cfg.aliveBeforeBoot then 1 else 0), past := t.past)
  {
    hide Uninterrupted, MarkedDown, ReasonFor, Config.Grace, Outcome.ModelLost;
    RelaunchingEnds(cfg, s, now, o, inFlight);
    var claims := inFlight && s.phase == Ready;
    var judged := s.(phase := if claims then Loading else s.phase, relaunchLoading := claims || s.relaunchLoading,
                     health := Judging(now, o), past := Uninterrupted(cfg, s, inFlight).past);
    JudgingEnds(cfg, judged, now, o, inFlight);
  }

  /** The rest of a failing probe. */
  lemma RelaunchingEnds(cfg: Config, s: Sys, now: int, o: Outcome, inFlight: bool)
    requires s.health == Relaunching(now, o) && s.unhealthySince.Some?
    ensures var claims := inFlight && s.phase == Ready;
            var judged := s.(phase := if claims then Loading else s.phase,
                             relaunchLoading := claims || s.relaunchLoading,
                             health := Judging(now, o), past := Uninterrupted(cfg, s, inFlight).past);
            Uninterrupted(cfg, s, inFlight) == Uninterrupted(cfg, judged, inFlight).(past := judged.past)
  {
    hide Uninterrupted, Judged, ReasonFor, MarkedDown;
    var step := HealthStepped(cfg, s, inFlight);
    Unroll(cfg, s, inFlight);
    Unroll(cfg, step, inFlight);
    var claims := inFlight && s.phase == Ready;
    var t := if claims then HealthStepped(cfg, step, inFlight) else step;
    var judged := s.(phase := if claims then Loading else s.phase, relaunchLoading := claims || s.relaunchLoading,
                     health := Judging(now, o), past := Uninterrupted(cfg, s, inFlight).past);
    JudgingEnds(cfg, t, now, o, inFlight);
    JudgingEnds(cfg, judged, now, o, inFlight);
  }

  lemma {:induction false} StretchIsFrom(probes: seq<Probe>, k: nat)
    requires StretchFrom(probes, k)
    ensures k < |probes| && StretchStart(probes) == Some(probes[k].time)
    decreases |probes|
  {
    var front := probes[..|probes| - 1];
    if k < |front| {
      StretchIsFrom(front, k);
    } else {
      StretchKnown(front);
    }
  }

  // ---- What a pass writes ----

  /** What a pass writes over, no health step touches: a download, a failure and a degrade that no probe has lifted. */
  lemma UntouchedStep(cfg: Config, s: Sys, e: Event)
    requires !WritesPhase(e)
    requires s.phase == Failed || s.phase == Download
             || (s.phase == Degraded && !(e.HealthStep? && s.health == Recovering))
    ensures Next(cfg, s, e).phase == s.phase && Next(cfg, s, e).lastError == s.lastError
  {
    hide ReasonFor, MarkedDown, Holds;
  }

  lemma {:induction false} UntouchedRun(cfg: Config, s: Sys, run: seq<Event>)
    requires NoPhaseSet(run)
    requires s.phase == Failed || s.phase == Download || (s.phase == Degraded && !Recovers(cfg, s, run))
    ensures After(cfg, s, run).phase == s.phase && After(cfg, s, run).lastError == s.lastError
    decreases |run|
  {
    if run != [] {
      assert run[0] in run && forall e | e in run[1..] :: e in run;
      UntouchedStep(cfg, s, run[0]);
      hide Next;
      UntouchedRun(cfg, Next(cfg, s, run[0]), run[1..]);
    }
  }

  /** A pass that fails for good leaves the model failed, with its message, over any run until a pass writes the phase;
      one that may be retried leaves it degraded, with its message, until a recovery or a pass. */
  lemma FailedPassEnds(cfg: Config, s: Sys, msg: string, retriable: bool, run: seq<Event>)
    requires Enabled(cfg, s, Fail(msg, retriable)) && NoPhaseSet(run)
    ensures var t := Next(cfg, s, Fail(msg, retriable));
            var u := After(cfg, t, run);
            && t.life == FailedPass(retriable)
            && (!retriable ==> u.phase == Failed && u.lastError == msg)
            && (retriable && !Recovers(cfg, t, run) ==> u.phase == Degraded && u.lastError == msg)
  {
    var t := Next(cfg, s, Fail(msg, retriable));
    if !retriable || !Recovers(cfg, t, run) {
      UntouchedRun(cfg, t, run);
    }
    hide After, Recovers;
  }

  /** A pass's own moves: to download, which clears the error and nothing but a pass then moves; the transfer's, which
      does not clear it; to loading, which leaves the error; and to ready, which clears it, ends the pass and starts
      the health loop. */
  lemma PassWrites(cfg: Config, s: Sys, p: Phase, run: seq<Event>)
    requires Enabled(cfg, s, SetPhase(p)) && NoPhaseSet(run)
    ensures var t, moved := Next(cfg, s, SetPhase(p)), Next(cfg, s, Transfer);
            && t.phase == p && moved.phase == Download && moved.lastError == s.lastError
            && (t.lastError == if p == Loading then s.lastError else "")
            && (t.life == if p == Ready then Served else InPass) && (p == Ready ==> t.probing)
            && (p == Download ==> After(cfg, t, run).phase == Download && After(cfg, t, run).lastError == "")
            && After(cfg, moved, run).phase == Download && After(cfg, moved, run).lastError == s.lastError
  {
    UntouchedRun(cfg, Next(cfg, s, Transfer), run);
    if p == Download {
      UntouchedRun(cfg, Next(cfg, s, SetPhase(p)), run);
    }
    hide After, Recovers, Holds;
  }

  /** The options of a retry are handed to the pass that begins next, whatever comes between, and to no other. */
  lemma OptionsAreTakenOnce(cfg: Config, s: Sys, opts: RetryOptions, run: seq<Event>)
    requires var asked := Next(cfg, s, RetryWith(opts));
             Allowed(cfg, asked, run) && Enabled(cfg, After(cfg, asked, run), Consume)
    requires forall i | 0 <= i < |run| :: !run[i].RetryWith? && !run[i].Consume?
    ensures var t := After(cfg, Next(cfg, s, RetryWith(opts)), run);
            t.pendingOpts == opts && Next(cfg, t, Consume).pendingOpts == RetryOptions(false, "")
  {
    PendingOptionsSurvive(cfg, Next(cfg, s, RetryWith(opts)), run);
    hide After, Allowed;
  }

  class Manager {
    const cfg: Config
    var phase: Phase
    var lastError: string
    var relaunchLoading: bool
    var lastReady: Option<ReadyState>
    var unhealthySince: Option<int>
    var engineReturns: nat
    var pendingOpts: RetryOptions
    var epoch: nat
    ghost var life: LifePoint
    ghost var probing: bool
    ghost var past: Memory

    /** The manager's fields as one value, the health loop standing at h. */
    ghost function At(h: HealthPoint): Sys
      reads this
    {
      Sys(phase, lastError, relaunchLoading, lastReady, unhealthySince, engineReturns, pendingOpts, epoch, life, h,
          probing, past)
    }

    constructor (cfg: Config, restored: bool)
      ensures this.cfg == cfg && At(Idle) == Initial(cfg, restored)
    {
      this.cfg := cfg;
      phase, lastError, relaunchLoading, lastReady := if restored then Ready else Init, "", false, None;
      unhealthySince, engineReturns, pendingOpts, epoch := None, 0, NO_OPTIONS, 0;
      life, probing, past := AtTop, cfg.aliveBeforeBoot, Memory(0, 0, false, [], 0, 0, ByPass, false);
    }

    /** Moves a ready model to loading while a relaunch is outstanding, and claims that loading. */
    method MarkEngineRelaunching(inFlight: bool, ghost now: int, ghost o: Outcome) returns (moved: bool)
      modifies this`phase, this`relaunchLoading, this`past
      ensures moved <==> inFlight && old(phase) == Ready
      ensures var step := HealthStepped(cfg, old(At(Relaunching(now, o))), inFlight);
              At(Judging(now, o)) == if moved then HealthStepped(cfg, step, inFlight) else step
    {
      if !inFlight {
        return false;
      }
      moved := false;
      if phase == Ready {
        phase := Loading;
        moved := true;
        past := past.(phaseBy := ByHealth, movedPass := past.passes, raced := false);
      }
      if moved {
        relaunchLoading := true;
      }
    }

    /** Flips the cached liveness and moves a serving model to degraded. */
    method MarkEngineDown(reason: string) returns (moved: bool)
      modifies this`lastReady, this`phase, this`lastError, this`relaunchLoading, this`past
      ensures lastReady == MarkedDown(old(lastReady))
      ensures moved <==> old(phase) == Ready || (old(phase) == Loading && old(relaunchLoading))
      ensures moved ==> phase == Degraded && lastError == reason && !relaunchLoading
      ensures moved ==> past == old(past).(phaseBy := ByHealth, degrades := old(past).degrades + 1)
      ensures !moved ==> unchanged(`phase, `lastError, `relaunchLoading, `past)
    {
      if lastReady.None? || lastReady.value.alive {
        var down := ReadyState(false, false);
        if lastReady.Some? {
          down := down.(modelExists := lastReady.value.modelExists);
        }
        lastReady := Some(down);
      }
      moved := false;
      if phase == Ready || (phase == Loading && relaunchLoading) {
        phase := Degraded;
        lastError := reason;
        moved := true;
        past := past.(phaseBy := ByHealth, degrades := past.degrades + 1);
      }
      if moved {
        relaunchLoading := false;
      }
    }

    method RecoverFromEngineOutage()
      modifies this`phase, this`lastError, this`relaunchLoading, this`past
      ensures At(Idle) == Uninterrupted(cfg, old(At(Recovering)), false)
    {
      hide Uninterrupted;
      ghost var s := At(Recovering);
      Unroll(cfg, s, false);
      Unroll(cfg, HealthStepped(cfg, s, false), false);
      Unroll(cfg, HealthStepped(cfg, HealthStepped(cfg, s, false), false), false);
      var moved := false;
      if phase == Degraded || (phase == Loading && relaunchLoading) {
        phase := Ready;
        past := past.(phaseBy := ByHealth);
        lastError := "";
        moved := true;
      }
      if moved {
        relaunchLoading := false;
      }
    }

    /** Wakes the loop for a plain pass; pending options are not in its frame. */
    method RequestReensure()
      modifies this`epoch, this`past
      ensures epoch == old(epoch) + 1 && past == old(past).(asks := old(past).asks + 1)
    {
      epoch := epoch + 1;
      past := past.(asks := past.asks + 1);
    }

    // The steps of the lifecycle loop, with the health loop standing anywhere.

    method SetPhase(p: Phase, ghost h: HealthPoint)
      requires p in {Download, Loading, Ready}
      modifies this`phase, this`lastError, this`life, this`probing, this`past
      ensures At(h) == Next(cfg, old(At(h)), Event.SetPhase(p))
    {
      hide HealthStepped, Probed, Cleared, Holds;
      ghost var s := At(h);
      past := past.(phaseBy := ByPass, covered := if p == Loading then Holds(s) else past.covered);
      assert past == PhaseSet(s, p).past;
      phase := p;
      match p {
        case Download => lastError := "";
        case Ready => lastError := "";
        case _ =>
      }
      probing := probing || p == Ready;
      life := if p == Ready then Served else InPass;
      assert At(h) == PhaseSet(s, p);
    }

    method AnnounceTransfer(ghost h: HealthPoint)
      modifies this`phase, this`past
      ensures At(h) == Next(cfg, old(At(h)), Transfer)
    {
      hide HealthStepped, Probed, Cleared, PhaseSet;
      phase := Download;
      past := past.(phaseBy := ByPass);
    }

    method Fail(msg: string, retriable: bool, ghost h: HealthPoint)
      modifies this`phase, this`lastError, this`life, this`past
      ensures At(h) == Next(cfg, old(At(h)), Event.Fail(msg, retriable))
    {
      hide HealthStepped, Probed, Cleared, PhaseSet;
      phase := Failed;
      if retriable {
        phase := Degraded;
      }
      lastError := msg;
      life, past := FailedPass(retriable), past.(phaseBy := ByPass);
    }

    /** The head of a pass: it takes the pending options and disowns any loading of the health loop's. */
    method BeginPass(ghost h: HealthPoint) returns (opts: RetryOptions)
      modifies this`pendingOpts, this`life, this`relaunchLoading, this`past
      ensures opts == old(pendingOpts)
      ensures At(h) == Next(cfg, Next(cfg, old(At(h)), Consume), Clear)
    {
      hide HealthStepped, Probed, PhaseSet;
      opts := ConsumePendingOpts(h);
      relaunchLoading := false;
      past := past.(passes := past.passes + 1, raced := past.raced || h.Claiming?,
                    covered := past.covered && h.Claiming?);
      life := InPass;
    }

    method RetryWith(opts: RetryOptions, ghost h: HealthPoint)
      modifies this`pendingOpts, this`epoch
      ensures At(h) == Next(cfg, old(At(h)), Event.RetryWith(opts))
    {
      hide HealthStepped, Probed, Cleared, PhaseSet;
      pendingOpts := opts;
      epoch := epoch + 1;
    }

    method ConsumePendingOpts(ghost h: HealthPoint) returns (opts: RetryOptions)
      modifies this`pendingOpts, this`life
      ensures opts == old(pendingOpts) && At(h) == Next(cfg, old(At(h)), Consume)
    {
      hide HealthStepped, Probed, Cleared, PhaseSet;
      opts := pendingOpts;
      pendingOpts := NO_OPTIONS;
      life := Clearing;
    }

    /** The end of a failing probe: past the grace, the model is called down, and a daemon that lost
        it is asked to take it again. */
    method JudgeFailure(o: Outcome, now: int, ghost inFlight: bool)
      requires unhealthySince.Some?
      modifies this`lastReady, this`phase, this`lastError, this`relaunchLoading, this`epoch, this`past
      ensures At(Idle) == Uninterrupted(cfg, old(At(Judging(now, o))), inFlight)
    {
      hide HealthStepped, Probed, MarkedDown, ReasonFor, Uninterrupted;
      JudgingEnds(cfg, At(Judging(now, o)), now, o, inFlight);
      if now - unhealthySince.value < cfg.Grace() {
        return;
      }
      var moved := MarkEngineDown(ReasonFor(o));
      if !moved {
        return;
      }
      if o.Reported? && o.rs.alive && !o.rs.modelExists && cfg.aliveBeforeBoot {
        RequestReensure();
      }
    }

    /** One probe from its answer to its end, when the lifecycle loop does nothing meanwhile. */
    method ProbeAndPublish(o: Outcome, now: int, inFlight: bool)
      modifies this
      ensures At(Idle) == Uninterrupted(cfg, Probed(old(At(Idle)), o, now), inFlight)
    {
      hide Uninterrupted, Judged, MarkedDown, ReasonFor;
      ghost var probed := Probed(At(Idle), o, now);
      past := past.(probes := past.probes + [Probe(o.Healthy(), now)]);
      if o.Reported? {
        lastReady := Some(o.rs);
      }
      if o.Healthy() {
        if unhealthySince.Some? {
          engineReturns := engineReturns + 1;
        }
        unhealthySince := None;
        assert At(Recovering) == probed;
        RecoverFromEngineOutage();
        InFlightIsMoot(cfg, probed, inFlight);
        return;
      }
      if unhealthySince.None? {
        unhealthySince := Some(now);
      }
      assert At(Relaunching(now, o)) == probed;
      var relaunching := MarkEngineRelaunching(inFlight, now, o);
      Unroll(cfg, probed, inFlight);
      Unroll(cfg, HealthStepped(cfg, probed, inFlight), inFlight);
      JudgeFailure(o, now, inFlight);
    }
  }

  lemma InFlightIsMoot(cfg: Config, s: Sys, inFlight: bool)
    requires s.health == Recovering
    ensures Uninterrupted(cfg, s, inFlight) == Uninterrupted(cfg, s, false)
  {
    hide Uninterrupted;
    var t := HealthStepped(cfg, s, inFlight);
    assert t == HealthStepped(cfg, s, false);
    assert HealthStepped(cfg, t, inFlight) == HealthStepped(cfg, t, false);
    Unroll(cfg, s, inFlight);
    Unroll(cfg, s, false);
    Unroll(cfg, t, inFlight);
    Unroll(cfg, t, false);
    Unroll(cfg, HealthStepped(cfg, t, false), inFlight);
    Unroll(cfg, HealthStepped(cfg, t, false), false);
  }
}
