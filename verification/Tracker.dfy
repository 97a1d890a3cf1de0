/** Engine restarts and the goroutines that watch for their outcome (internal/handoff/tracker.go).

    Requests and observers run concurrently. Whatever one of them does under the tracker's lock, or
    between two uses of it, is one step here, and a run is any interleaving of steps. Each request
    with a run directory is assumed to bring a generation never used before. */
module Tracker {
  import opened Numbers

  datatype State = Idle | Watching | Confirmed | NoSupervisor | Unverified

  datatype Status = Status(state: State, supervised: bool, generation: string, requestedAt: Option<int>,
                           downAt: Option<int>, backAt: Option<int>) {
    /** A requested relaunch is still outstanding. */
    predicate Relaunching() {
      state == Watching || (state == Confirmed && backAt == None)
    }

    /** The last relaunch the engine was seen to come back from: its generation and when. */
    function Relaunch(): Option<(string, int)> {
      if backAt == None then None else Some((generation, backAt.value))
    }
  }

  /** Whether there is a run directory, whether a probe is wired, and how long to watch. */
  datatype Config = Config(runDir: bool, probe: bool, window: int) {
    predicate Watches() {
      runDir && probe
    }
  }

  /** Where an observer stands in its loop. The Report and Persist points carry what the probe that
      led there saw, since other steps may come before they are taken. */
  datatype Point =
    | Starting | Baseline | ReportDown(at: int) | Sleeping | Probing
    | ReportDip(at: int) | PersistDip(at: int) | ReportBack(at: int) | PersistBack
    | ReportNoSupervisor | ReportUnverified | Done

  /** One observation: its generation, its locals, and the probe answers it has had. */
  datatype Observer = Observer(generation: string, cancelled: bool, point: Point, deadline: int,
                               down: bool, confirmed: bool, seenAt: int, probes: seq<bool>)

  /** The tracker, its observers, and the file that outlives it; then what is only remembered about the
      run: which observers reported an edge before they were superseded, and which wrote the file. */
  datatype Sys = Sys(status: Status, cancel: Option<nat>, observers: seq<Observer>,
                     disk: Option<string>, used: set<string>, credited: set<nat>, persisted: set<nat>)

  datatype Event = Request(generation: string, now: int) | Advance(observer: nat, alive: bool, now: int)
                 | Quit(observer: nat)

  // ---- Steps ----

  function CancelOld(observers: seq<Observer>, cancel: Option<nat>): (r: seq<Observer>)
    ensures |r| == |observers|
  {
    seq(|observers|, i requires 0 <= i < |observers| =>
          if cancel == Some(i) then observers[i].(cancelled := true) else observers[i])
  }

  function Requested(cfg: Config, s: Sys, generation: string, now: int): Sys {
    var before := CancelOld(s.observers, s.cancel);
    var state := if cfg.Watches() then Watching else Unverified;
    var status := Status(state, s.status.supervised, generation, Some(now), None, None);
    if cfg.Watches() then
      Sys(status, Some(|before|), before + [Observer(generation, false, Starting, 0, false, false, 0, [])],
          s.disk, s.used + {generation}, s.credited, s.persisted)
    else Sys(status, None, before, s.disk, s.used + {generation}, s.credited, s.persisted)
  }

  /** Applies a verdict unless a newer generation has taken over. */
  function Settled(status: Status, generation: string, mutate: Status -> Status): Status {
    if status.generation != generation then status else mutate(status)
  }

  /** Where the loop goes after a probe that found no edge, or after reporting one. */
  function Onward(o: Observer, now: int): Point {
    if now < o.deadline then Sleeping
    else if !o.down then ReportNoSupervisor
    else if !o.confirmed then ReportUnverified
    else Done
  }

  /** What an observer's next step does to its own locals. */
  function Moved(cfg: Config, o: Observer, alive: bool, now: int): Observer {
    match o.point
    case Starting => o.(deadline := now + cfg.window, point := Baseline)
    case Baseline =>
      o.(probes := o.probes + [alive], seenAt := now, down := !alive,
      point := if alive then Sleeping else ReportDown(now))
    case ReportDown(_) => o.(point := Sleeping)
    case Sleeping => o.(point := Probing)
    case Probing =>
      var seen := o.(probes := o.probes + [alive], seenAt := now);
      if !alive && !o.down then seen.(down := true, confirmed := true, point := ReportDip(now))
      else if alive && o.down then seen.(point := ReportBack(now))
      else seen.(point := Onward(o, now))
    case ReportDip(at) => o.(point := PersistDip(at))
    case PersistDip(at) => o.(point := Onward(o, at))
    case ReportBack(_) => o.(point := if o.confirmed then Done else PersistBack)
    case PersistBack => o.(point := Done)
    case ReportNoSupervisor => o.(point := Done)
    case ReportUnverified => o.(point := Done)
    case Done => o
  }

  /** What it does to the status. */
  function Reported(status: Status, o: Observer): Status {
    match o.point
    case ReportDown(at) => Settled(status, o.generation, (s: Status) => s.(downAt := Some(at)))
    case ReportDip(at) =>
      Settled(status, o.generation, (s: Status) => s.(state := Confirmed, downAt := Some(at), supervised := true))
    case ReportBack(at) =>
      Settled(status, o.generation, (s: Status) => s.(state := Confirmed, backAt := Some(at), supervised := true))
    case ReportNoSupervisor => Settled(status, o.generation, (s: Status) => s.(state := NoSupervisor))
    case ReportUnverified => Settled(status, o.generation, (s: Status) => s.(state := Unverified))
    case _ => status
  }

  /** Its next step reports the edge that confirms a supervisor. */
  predicate ReportsEdge(o: Observer) {
    o.point.ReportDip? || o.point.ReportBack?
  }

  /** Its next step records a confirmation. */
  predicate Persists(o: Observer) {
    o.point.PersistDip? || o.point.PersistBack?
  }

  function Advanced(cfg: Config, s: Sys, i: nat, alive: bool, now: int): Sys
    requires i < |s.observers|
  {
    var o := s.observers[i];
    s.(observers := s.observers[i := Moved(cfg, o, alive, now)],
    status := Reported(s.status, o),
    disk := if Persists(o) then Some(o.generation) else s.disk,
    credited := if ReportsEdge(o) && o.generation == s.status.generation then s.credited + {i} else s.credited,
    persisted := if Persists(o) then s.persisted + {i} else s.persisted)
  }

  predicate Enabled(cfg: Config, s: Sys, e: Event) {
    match e
    case Request(generation, _) => if cfg.runDir then generation !in s.used else generation == ""
    case Advance(i, _, _) => i < |s.observers|
    case Quit(i) => i < |s.observers| && s.observers[i].point == Sleeping && s.observers[i].cancelled
  }

  function Next(cfg: Config, s: Sys, e: Event): Sys
    requires Enabled(cfg, s, e)
  {
    match e
    case Request(generation, now) => Requested(cfg, s, generation, now)
    case Advance(i, alive, now) => Advanced(cfg, s, i, alive, now)
    case Quit(i) => s.(observers := s.observers[i := s.observers[i].(point := Done)])
  }

  /** A run from s, and where it ends. */
  predicate Allowed(cfg: Config, s: Sys, run: seq<Event>)
    decreases |run|
  {
    run == [] || (Enabled(cfg, s, run[0]) && Allowed(cfg, Next(cfg, s, run[0]), run[1..]))
  }

  function After(cfg: Config, s: Sys, run: seq<Event>): Sys
    requires Allowed(cfg, s, run)
    decreases |run|
  {
    if run == [] then s else After(cfg, Next(cfg, s, run[0]), run[1..])
  }

  /** The record found in the run directory; without one there is none. */
  function Found(cfg: Config, disk: Option<string>): Option<string> {
    if cfg.runDir then disk else None
  }

  /** A tracker as it is built: idle, with the supervision the file remembers. */
  function Initial(cfg: Config, disk: Option<string>): Sys {
    Sys(Status(Idle, Found(cfg, disk).Some?, "", None, None, None), None, [], Found(cfg, disk), {""}, {}, {})
  }

  // ---- What holds at every moment ----

  predicate AllAlive(probes: seq<bool>) {
    forall i | 0 <= i < |probes| :: probes[i]
  }

  predicate AllDown(probes: seq<bool>) {
    forall i | 0 <= i < |probes| :: !probes[i]
  }

  /** Two probes disagreed. */
  predicate Mixed(probes: seq<bool>) {
    true in probes && false in probes
  }

  /** An observer's locals agree with the answers it has had. */
  predicate LocalOk(o: Observer) {
    && (o.confirmed ==> o.down && Mixed(o.probes))
    && match o.point {
         case Starting => o.probes == [] && !o.down && !o.confirmed
         case Baseline => o.probes == [] && !o.down && !o.confirmed
         case ReportDown(_) => o.probes == [false] && o.down && !o.confirmed
         case ReportDip(at) => o.confirmed && at == o.seenAt
         case PersistDip(at) => o.confirmed && at == o.seenAt
         case ReportBack(_) => o.down && Mixed(o.probes)
         case PersistBack => Mixed(o.probes)
         case ReportNoSupervisor => !o.down && o.probes != [] && AllAlive(o.probes) && o.seenAt >= o.deadline
         case ReportUnverified =>
           o.down && !o.confirmed && o.probes != [] && AllDown(o.probes) && o.seenAt >= o.deadline
         case Done => true
         case _ =>
           && o.probes != []
           && (!o.down ==> AllAlive(o.probes))
           && (o.down && !o.confirmed ==> AllDown(o.probes))
       }
  }

  /** What the status says about an observation that is still the current one. */
  predicate StatusOk(st: Status, o: Observer) {
    && (st.backAt.Some? ==> st.downAt.Some? && st.state == Confirmed)
    && match o.point {
         case Starting => st.state == Watching && st.downAt == None && st.backAt == None
         case Baseline => st.state == Watching && st.downAt == None && st.backAt == None
         case ReportDown(_) => st.state == Watching && st.downAt == None && st.backAt == None
         case ReportDip(_) => st.state == Watching && st.downAt == None && st.backAt == None
         case PersistDip(_) => st.state == Confirmed && st.downAt.Some? && st.backAt == None
         case ReportBack(_) =>
           st.downAt.Some? && st.backAt == None && st.state == if o.confirmed then Confirmed else Watching
         case PersistBack => st.state == Confirmed && st.backAt.Some?
         case Done =>
           || (st.state == Confirmed && Mixed(o.probes) && st.downAt.Some?)
           || (st.state == NoSupervisor && o.probes != [] && AllAlive(o.probes) && o.seenAt >= o.deadline)
           || (st.state == Unverified && o.probes != [] && AllDown(o.probes) && o.seenAt >= o.deadline)
         case _ =>
           st.backAt == None && (o.down <==> st.downAt.Some?) && st.state == if o.confirmed then Confirmed else Watching
       }
  }

  ghost predicate Inv(cfg: Config, s: Sys) {
    && s.status.generation in s.used
    && (!cfg.runDir ==> s.status.generation == "")
    && (s.observers != [] ==> cfg.Watches())
    && (s.cancel.Some? ==> s.cancel.value < |s.observers|)
    && (forall i | 0 <= i < |s.observers| :: LocalOk(s.observers[i]) && s.observers[i].generation in s.used)
    && (forall i, j | 0 <= i < j < |s.observers| :: s.observers[i].generation != s.observers[j].generation)
    && (forall i | 0 <= i < |s.observers| && s.observers[i].generation == s.status.generation ::
          !s.observers[i].cancelled && StatusOk(s.status, s.observers[i]) && s.cancel == Some(i))
    && (s.cancel == None ==> s.status.state in {Idle, Unverified} && s.status.downAt == None && s.status.backAt == None)
    && (s.cancel.Some? ==> s.observers[s.cancel.value].generation == s.status.generation)
  }

  lemma InitialOk(cfg: Config, disk: Option<string>)
    ensures Inv(cfg, Initial(cfg, disk))
  {
  }

  lemma RequestKeeps(cfg: Config, s: Sys, generation: string, now: int)
    requires Inv(cfg, s) && Enabled(cfg, s, Request(generation, now))
    ensures Inv(cfg, Requested(cfg, s, generation, now))
  {
    hide Moved, Reported, StatusOk, LocalOk;
    var t := Requested(cfg, s, generation, now);
    forall i | 0 <= i < |s.observers|
      ensures LocalOk(t.observers[i]) && t.observers[i].generation == s.observers[i].generation
    {
      CancelledLocalOk(s.observers[i]);
    }
    if cfg.Watches() {
      var o := Observer(generation, false, Starting, 0, false, false, 0, []);
      StartingOk(t.status, o);
    }
  }

  lemma CancelledLocalOk(o: Observer)
    requires LocalOk(o)
    ensures LocalOk(o.(cancelled := true))
  {
  }

  lemma StartingOk(st: Status, o: Observer)
    requires st.state == Watching && st.downAt == None && st.backAt == None
    requires o.point == Starting && o.probes == [] && !o.down && !o.confirmed
    ensures LocalOk(o) && StatusOk(st, o)
  {
  }

  /** What one more answer makes of the answers so far. */
  lemma OneMore(probes: seq<bool>, alive: bool)
    ensures AllAlive([]) && AllDown([]) && AllDown([false])
    ensures probes == [] ==> probes + [alive] == [alive]
    ensures AllAlive(probes + [alive]) <==> AllAlive(probes) && alive
    ensures AllDown(probes + [alive]) <==> AllDown(probes) && !alive
    ensures Mixed(probes) ==> Mixed(probes + [alive])
    ensures probes != [] && AllAlive(probes) && !alive ==> Mixed(probes + [alive])
    ensures probes != [] && AllDown(probes) && alive ==> Mixed(probes + [alive])
  {
    var more := probes + [alive];
    assert more[|probes|] == alive;
    assert forall i | 0 <= i < |probes| :: more[i] == probes[i];
    assert probes != [] ==> more[0] == probes[0];
  }

  lemma MovedOk(cfg: Config, o: Observer, alive: bool, now: int)
    requires LocalOk(o)
    ensures LocalOk(Moved(cfg, o, alive, now))
    ensures Moved(cfg, o, alive, now).generation == o.generation
    ensures Moved(cfg, o, alive, now).cancelled == o.cancelled
  {
    OneMore(o.probes, alive);
    hide AllAlive, AllDown, Mixed;
  }

  lemma ReportedOk(cfg: Config, st: Status, o: Observer, alive: bool, now: int)
    requires LocalOk(o) && st.generation == o.generation && StatusOk(st, o)
    ensures StatusOk(Reported(st, o), Moved(cfg, o, alive, now))
    ensures st.supervised ==> Reported(st, o).supervised
    ensures st.backAt.Some? ==> Reported(st, o).backAt == st.backAt
    ensures st.downAt.Some? ==> Reported(st, o).downAt == st.downAt
  {
  }

  lemma AdvanceKeeps(cfg: Config, s: Sys, i: nat, alive: bool, now: int)
    requires Inv(cfg, s) && i < |s.observers|
    ensures Inv(cfg, Advanced(cfg, s, i, alive, now))
  {
    hide LocalOk, StatusOk, Moved;
    var o := s.observers[i];
    MovedOk(cfg, o, alive, now);
    if o.generation == s.status.generation {
      ReportedOk(cfg, s.status, o, alive, now);
    }
  }

  /** Every step keeps the invariant. */
  lemma NextKeeps(cfg: Config, s: Sys, e: Event)
    requires Inv(cfg, s) && Enabled(cfg, s, e)
    ensures Inv(cfg, Next(cfg, s, e))
  {
    match e
    case Request(generation, now) => RequestKeeps(cfg, s, generation, now);
    case Advance(i, alive, now) => AdvanceKeeps(cfg, s, i, alive, now);
    case Quit(i) =>
      hide StatusOk;
  }

  lemma {:induction false} RunKeeps(cfg: Config, s: Sys, run: seq<Event>)
    requires Inv(cfg, s) && Allowed(cfg, s, run)
    ensures Inv(cfg, After(cfg, s, run))
    decreases |run|
  {
    hide Inv, Next;
    if run != [] {
      NextKeeps(cfg, s, run[0]);
      RunKeeps(cfg, Next(cfg, s, run[0]), run[1..]);
    }
  }

  // ---- What a verdict is worth ----

  /** The observation the status is about. */
  predicate Current(s: Sys, i: nat) {
    i < |s.observers| && s.observers[i].generation == s.status.generation
  }

  /** In every run: no-supervisor is published only if every probe of the current generation was alive
      and its window had passed, unverified (when observing at all) only if every one was down and the
      window had passed, confirmed only if two of them disagreed; and an observation that is done
      always leaves a verdict. */
  lemma VerdictsAreEarned(cfg: Config, disk: Option<string>, run: seq<Event>)
    requires Allowed(cfg, Initial(cfg, disk), run)
    ensures var s := After(cfg, Initial(cfg, disk), run);
            && (s.status.state in {Watching, NoSupervisor, Confirmed} ==> exists i: nat :: Current(s, i))
            && forall i: nat | Current(s, i) ::
                 var o, st := s.observers[i], s.status;
                 && (st.state == NoSupervisor ==> o.probes != [] && AllAlive(o.probes) && o.seenAt >= o.deadline)
                 && (st.state == Unverified ==> o.probes != [] && AllDown(o.probes) && o.seenAt >= o.deadline)
                 && (st.state == Confirmed ==> Mixed(o.probes))
                 && (o.point == Done ==> st.state in {Confirmed, NoSupervisor, Unverified})
                 && (st.backAt.Some? ==> st.downAt.Some? && st.state == Confirmed)
  {
    InitialOk(cfg, disk);
    RunKeeps(cfg, Initial(cfg, disk), run);
    var s := After(cfg, Initial(cfg, disk), run);
    hide After, Allowed, Initial;
    if s.cancel.Some? {
      assert Current(s, s.cancel.value);
    }
    forall i: nat | Current(s, i)
      ensures CurrentVerdict(s.status, s.observers[i])
    {
      VerdictOfCurrent(s.status, s.observers[i]);
    }
  }

  predicate CurrentVerdict(st: Status, o: Observer) {
    && (st.state == NoSupervisor ==> o.probes != [] && AllAlive(o.probes) && o.seenAt >= o.deadline)
    && (st.state == Unverified ==> o.probes != [] && AllDown(o.probes) && o.seenAt >= o.deadline)
    && (st.state == Confirmed ==> Mixed(o.probes))
    && (o.point == Done ==> st.state in {Confirmed, NoSupervisor, Unverified})
    && (st.backAt.Some? ==> st.downAt.Some? && st.state == Confirmed)
  }

  lemma VerdictOfCurrent(st: Status, o: Observer)
    requires LocalOk(o) && StatusOk(st, o)
    ensures CurrentVerdict(st, o)
  {
  }

  // ---- What never changes back ----

  /** t is the tracker some steps after s: supervision stays known, a generation once replaced is never
      taken up again, and what was seen of a generation stays as it was first seen. */
  ghost predicate Later(s: Sys, t: Sys) {
    && s.used <= t.used
    && (t.status.generation == s.status.generation || t.status.generation !in s.used)
    && (s.status.supervised ==> t.status.supervised)
    && (t.status.generation == s.status.generation && s.status.downAt.Some? ==> t.status.downAt == s.status.downAt)
    && (t.status.generation == s.status.generation && s.status.Relaunch().Some?
        ==> t.status.Relaunch() == s.status.Relaunch())
    && |s.observers| <= |t.observers|
    && forall i | 0 <= i < |s.observers| :: t.observers[i].generation == s.observers[i].generation
  }

  lemma NextIsLater(cfg: Config, s: Sys, e: Event)
    requires Inv(cfg, s) && Enabled(cfg, s, e)
    ensures Later(s, Next(cfg, s, e))
  {
    hide LocalOk;
    match e
    case Request(generation, now) =>
    case Quit(i) =>
    case Advance(i, alive, now) =>
      var o := s.observers[i];
      MovedGeneration(cfg, o, alive, now);
      if o.generation == s.status.generation {
        hide StatusOk, Moved;
        CurrentReportKeeps(cfg, s, i, alive, now);
      }
  }

  lemma MovedGeneration(cfg: Config, o: Observer, alive: bool, now: int)
    ensures Moved(cfg, o, alive, now).generation == o.generation
  {
  }

  lemma CurrentReportKeeps(cfg: Config, s: Sys, i: nat, alive: bool, now: int)
    requires Inv(cfg, s) && Current(s, i)
    ensures var st := Reported(s.status, s.observers[i]);
            && st.generation == s.status.generation
            && (s.status.supervised ==> st.supervised)
            && (s.status.downAt.Some? ==> st.downAt == s.status.downAt)
            && (s.status.backAt.Some? ==> st.backAt == s.status.backAt)
  {
    hide Moved;
    ReportedOk(cfg, s.status, s.observers[i], alive, now);
  }

  lemma GenerationUsed(cfg: Config, s: Sys)
    requires Inv(cfg, s)
    ensures s.status.generation in s.used
  {
  }

  /** Over any run. In particular Relaunch() takes at most one value for each generation, supervision
      never returns to unknown, and no superseded generation comes back. */
  lemma {:induction false} RunIsLater(cfg: Config, s: Sys, run: seq<Event>)
    requires Inv(cfg, s) && Allowed(cfg, s, run)
    ensures Later(s, After(cfg, s, run))
    decreases |run|
  {
    hide Inv, Next, Enabled, Later;
    if run == [] {
      LaterReflexive(s);
    } else {
      NextIsLater(cfg, s, run[0]);
      NextKeeps(cfg, s, run[0]);
      RunIsLater(cfg, Next(cfg, s, run[0]), run[1..]);
      assert s.status.generation in s.used by {
        GenerationUsed(cfg, s);
      }
      LaterTransitive(s, Next(cfg, s, run[0]), After(cfg, s, run));
    }
  }

  lemma LaterReflexive(a: Sys)
    ensures Later(a, a)
  {
  }

  lemma LaterTransitive(a: Sys, b: Sys, c: Sys)
    requires a.status.generation in a.used && Later(a, b) && Later(b, c)
    ensures Later(a, c)
  {
  }

  /** Once superseded, an observer changes nothing in the status, at any later point of any run. */
  lemma SupersededIsPowerless(cfg: Config, s: Sys, run: seq<Event>, i: nat, alive: bool, now: int)
    requires Inv(cfg, s) && Allowed(cfg, s, run)
    requires i < |s.observers| && !Current(s, i)
    ensures var t := After(cfg, s, run);
            i < |t.observers| && !Current(t, i) && Next(cfg, t, Advance(i, alive, now)).status == t.status
  {
    RunIsLater(cfg, s, run);
    RunKeeps(cfg, s, run);
  }

  // ---- Supervision ----

  /** Supervision is known only from a pair of probes that disagreed. */
  ghost predicate SupervisionEarned(s: Sys) {
    s.status.supervised ==> exists i :: 0 <= i < |s.observers| && Mixed(s.observers[i].probes)
  }

  lemma ProbesGrow(cfg: Config, o: Observer, alive: bool, now: int)
    ensures o.probes <= Moved(cfg, o, alive, now).probes
  {
  }

  lemma NextEarns(cfg: Config, s: Sys, e: Event)
    requires Inv(cfg, s) && Enabled(cfg, s, e) && SupervisionEarned(s)
    ensures SupervisionEarned(Next(cfg, s, e))
  {
    hide StatusOk;
    var t := Next(cfg, s, e);
    if t.status.supervised {
      var k: nat;
      if s.status.supervised {
        k :| k < |s.observers| && Mixed(s.observers[k].probes);
      } else {
        k := e.observer;
        assert Mixed(s.observers[k].probes);
      }
      hide Inv, LocalOk;
      if e.Advance? {
        ProbesGrow(cfg, s.observers[e.observer], e.alive, e.now);
      }
      assert s.observers[k].probes <= t.observers[k].probes;
      PrefixMixed(s.observers[k].probes, t.observers[k].probes);
    }
  }

  lemma PrefixMixed(a: seq<bool>, b: seq<bool>)
    requires a <= b && Mixed(a)
    ensures Mixed(b)
  {
    var i, j :| 0 <= i < |a| && 0 <= j < |a| && a[i] && !a[j];
    assert b[i] && !b[j];
  }

  /** Starting from a file that says nothing, the tracker never claims a supervisor unless some
      observer had two probes that disagreed. */
  lemma {:induction false} SupervisionIsEarned(cfg: Config, s: Sys, run: seq<Event>)
    requires Inv(cfg, s) && SupervisionEarned(s) && Allowed(cfg, s, run)
    ensures SupervisionEarned(After(cfg, s, run))
    decreases |run|
  {
    hide Inv, Next, Enabled, SupervisionEarned;
    if run != [] {
      NextEarns(cfg, s, run[0]);
      NextKeeps(cfg, s, run[0]);
      SupervisionIsEarned(cfg, Next(cfg, s, run[0]), run[1..]);
    }
  }

  // ---- The file on disk ----

  /** It has recorded a confirmation, or is about to. */
  predicate Persisting(s: Sys, i: nat) {
    i in s.persisted || (i < |s.observers| && Persists(s.observers[i]))
  }

  /** What is remembered of an observer, by whether it is current, credited and has persisted. */
  predicate EvidenceOf(o: Observer, current: bool, credited: bool, persisted: bool) {
    && (persisted ==> Mixed(o.probes))
    && (o.confirmed && !o.point.ReportDip? && !o.point.PersistDip? ==> persisted)
    && (credited ==> persisted || Persists(o))
    && (Persists(o) && current ==> credited)
  }

  predicate ObserverEvidence(s: Sys, i: nat)
    requires i < |s.observers|
  {
    var o := s.observers[i];
    EvidenceOf(o, o.generation == s.status.generation, i in s.credited, i in s.persisted)
  }

  /** The record names the generation of an observer that wrote it. */
  ghost predicate DiskNamed(s: Sys) {
    s.persisted != {} ==> exists i :: i in s.persisted && i < |s.observers| && s.disk == Some(s.observers[i].generation)
  }

  /** What the file and the status rest on; known says that there was a record to begin with. */
  ghost predicate Evidence(known: bool, s: Sys) {
    && (s.status.supervised <==> known || s.credited != {})
    && (s.disk.Some? <==> known || s.persisted != {})
    && DiskNamed(s)
    && (forall i: nat | i in s.credited :: i < |s.observers|)
    && (forall i: nat | i in s.persisted :: i < |s.observers|)
    && (forall i: nat | i < |s.observers| :: ObserverEvidence(s, i))
  }

  lemma MovedEvidence(cfg: Config, o: Observer, alive: bool, now: int, current: bool, credited: bool, persisted: bool)
    requires LocalOk(o) && EvidenceOf(o, current, credited, persisted)
    ensures EvidenceOf(Moved(cfg, o, alive, now), current, credited || (ReportsEdge(o) && current),
                       persisted || Persists(o))
  {
    ProbesGrow(cfg, o, alive, now);
    if Mixed(o.probes) {
      PrefixMixed(o.probes, Moved(cfg, o, alive, now).probes);
    }
    hide Mixed, AllAlive, AllDown;
  }

  lemma GenerationStays(status: Status, o: Observer)
    ensures Reported(status, o).generation == status.generation
  {
  }

  lemma AdvanceEvidence(cfg: Config, known: bool, s: Sys, i: nat, alive: bool, now: int)
    requires Inv(cfg, s) && Evidence(known, s) && i < |s.observers|
    ensures Evidence(known, Advanced(cfg, s, i, alive, now))
  {
    var t, o := Advanced(cfg, s, i, alive, now), s.observers[i];
    assert LocalOk(o) && ObserverEvidence(s, i);
    MovedGeneration(cfg, o, alive, now);
    GenerationStays(s.status, o);
    MovedEvidence(cfg, o, alive, now, o.generation == s.status.generation, i in s.credited, i in s.persisted);
    EdgeSupervises(s.status, o);
    hide Inv, LocalOk, Moved, Reported, EvidenceOf, Persists, ReportsEdge;
    forall k: nat | k < |t.observers|
      ensures ObserverEvidence(t, k)
    {
      assert ObserverEvidence(s, k);
    }
    AdvanceDisk(cfg, s, i, alive, now);
    hide ObserverEvidence, DiskNamed;
    assert ReportsEdge(o) && o.generation == s.status.generation ==> i in t.credited;
    assert Persists(o) ==> i in t.persisted;
  }

  lemma AdvanceDisk(cfg: Config, s: Sys, i: nat, alive: bool, now: int)
    requires DiskNamed(s) && i < |s.observers|
    ensures DiskNamed(Advanced(cfg, s, i, alive, now))
  {
    MovedGeneration(cfg, s.observers[i], alive, now);
    hide Moved, Reported, Persists;
    var t := Advanced(cfg, s, i, alive, now);
    if Persists(s.observers[i]) {
      assert i in t.persisted && t.disk == Some(t.observers[i].generation);
    } else if s.persisted != {} {
      var k :| k in s.persisted && k < |s.observers| && s.disk == Some(s.observers[k].generation);
      assert k in t.persisted && t.disk == Some(t.observers[k].generation);
    }
  }

  /** A report claims a supervisor exactly when it is an edge of the current observer, or one was claimed. */
  lemma EdgeSupervises(status: Status, o: Observer)
    ensures Reported(status, o).supervised <==>
            status.supervised || (ReportsEdge(o) && o.generation == status.generation)
  {
  }

  lemma RequestEvidence(cfg: Config, known: bool, s: Sys, generation: string, now: int)
    requires Inv(cfg, s) && Evidence(known, s) && Enabled(cfg, s, Request(generation, now))
    ensures Evidence(known, Requested(cfg, s, generation, now))
  {
    hide LocalOk, StatusOk, EvidenceOf;
    var t := Requested(cfg, s, generation, now);
    forall k: nat | k < |t.observers|
      ensures ObserverEvidence(t, k)
    {
      if k < |s.observers| {
        assert ObserverEvidence(s, k);
        assert s.observers[k].generation in s.used;
        SupersededEvidence(s.observers[k], t.observers[k], s.observers[k].generation == s.status.generation,
                           k in s.credited, k in s.persisted);
      } else {
        NewEvidence(t.observers[k]);
      }
    }
    hide Inv, ObserverEvidence;
    RequestDisk(cfg, s, generation, now);
    hide DiskNamed;
  }

  lemma SupersededEvidence(o: Observer, after: Observer, current: bool, credited: bool, persisted: bool)
    requires EvidenceOf(o, current, credited, persisted) && (after == o || after == o.(cancelled := true))
    ensures EvidenceOf(after, false, credited, persisted)
  {
  }

  lemma NewEvidence(o: Observer)
    requires o.point == Starting && !o.confirmed
    ensures EvidenceOf(o, true, false, false)
  {
  }

  lemma RequestDisk(cfg: Config, s: Sys, generation: string, now: int)
    requires DiskNamed(s)
    ensures DiskNamed(Requested(cfg, s, generation, now))
  {
    var t := Requested(cfg, s, generation, now);
    if s.persisted != {} {
      var k :| k in s.persisted && k < |s.observers| && s.disk == Some(s.observers[k].generation);
      assert k in t.persisted && t.disk == Some(t.observers[k].generation);
    }
  }

  lemma QuitEvidence(cfg: Config, known: bool, s: Sys, i: nat)
    requires Evidence(known, s) && Enabled(cfg, s, Quit(i))
    ensures Evidence(known, Next(cfg, s, Quit(i)))
  {
    hide Mixed;
    var t := Next(cfg, s, Quit(i));
    forall k: nat | k < |t.observers|
      ensures ObserverEvidence(t, k)
    {
      assert ObserverEvidence(s, k);
    }
    hide ObserverEvidence;
    if s.persisted != {} {
      var k :| k in s.persisted && k < |s.observers| && s.disk == Some(s.observers[k].generation);
      assert k in t.persisted && t.disk == Some(t.observers[k].generation);
    }
  }

  lemma NextEvidence(cfg: Config, known: bool, s: Sys, e: Event)
    requires Inv(cfg, s) && Evidence(known, s) && Enabled(cfg, s, e)
    ensures Evidence(known, Next(cfg, s, e))
  {
    match e {
      case Request(generation, now) => RequestEvidence(cfg, known, s, generation, now);
      case Advance(i, alive, now) => AdvanceEvidence(cfg, known, s, i, alive, now);
      case Quit(i) => QuitEvidence(cfg, known, s, i);
    }
    hide Inv, Evidence, Requested, Advanced;
  }

  lemma {:induction false} RunEvidence(cfg: Config, known: bool, s: Sys, run: seq<Event>)
    requires Inv(cfg, s) && Evidence(known, s) && Allowed(cfg, s, run)
    ensures Evidence(known, After(cfg, s, run))
    decreases |run|
  {
    hide Inv, Evidence, Next, Enabled;
    if run != [] {
      NextKeeps(cfg, s, run[0]);
      NextEvidence(cfg, known, s, run[0]);
      RunEvidence(cfg, known, Next(cfg, s, run[0]), run[1..]);
    }
  }

  /** In every run of a tracker that found no record: once one is written, the status claims a supervisor
      exactly when some observer that writes one reported its edge before it was superseded. The record
      names a generation with an observer that had two probes that disagreed. And a status that claims a
      supervisor is recorded, or about to be. */
  lemma FileAgreesExactly(cfg: Config, run: seq<Event>)
    requires Allowed(cfg, Initial(cfg, None), run)
    ensures var s := After(cfg, Initial(cfg, None), run);
            && (s.disk.Some? ==> (s.status.supervised <==> exists i: nat :: Persisting(s, i) && i in s.credited))
            && (s.disk.Some? ==> exists i: nat :: i < |s.observers| && s.disk == Some(s.observers[i].generation)
                                                  && Mixed(s.observers[i].probes))
            && (s.status.supervised ==> exists i: nat :: Persisting(s, i) && i in s.credited)
  {
    hide After, Allowed, Mixed;
    InitialOk(cfg, None);
    var s := After(cfg, Initial(cfg, None), run);
    RunEvidence(cfg, false, Initial(cfg, None), run);
    if s.status.supervised {
      assert s.credited != {};
      var i: nat :| i in s.credited;
      assert i < |s.observers|;
      assert ObserverEvidence(s, i);
      assert Persisting(s, i) && i in s.credited;
    }
    if s.disk.Some? {
      var i :| i in s.persisted && i < |s.observers| && s.disk == Some(s.observers[i].generation);
      assert ObserverEvidence(s, i);
    }
  }

  /** The guard on generations protects the status but not the file: an observer already superseded,
      whose cancelled probe read as down, still records a confirmation. So the file can claim a
      supervisor, for a generation that is over, that no status ever claimed. */
  lemma DiskCanOutrunStatus(cfg: Config)
    requires cfg.Watches() && cfg.window > 0
    ensures exists run :: Allowed(cfg, Initial(cfg, None), run)
                          && var s := After(cfg, Initial(cfg, None), run);
                             s.disk == Some("1") && s.status.generation == "2" && !s.status.supervised
  {
    hide Inv, LocalOk, StatusOk;
    var s0 := Initial(cfg, None);
    var step := Advance(0, true, 0);
    var s1 := Next(cfg, s0, Request("1", 0));
    var s3 := Next(cfg, Next(cfg, s1, step), step);
    assert s3.observers[0].point == Sleeping && s3.observers[0].probes == [true] && !s3.observers[0].down;
    assert |s3.observers| == 1 && s3.observers[0].generation == "1" && s3.cancel == Some(0) && s3.used == {"", "1"};
    var run := SupersededPersists(cfg, s3);
    hide Next;
    run := Prepend(cfg, s1, step, step, run);
    PrependOne(cfg, s0, Request("1", 0), run);
    var whole := [Request("1", 0)] + run;
    assert Allowed(cfg, s0, whole);
  }

  /** From an observer that saw its engine alive, through a second request, to its record. */
  lemma SupersededPersists(cfg: Config, s3: Sys) returns (run: seq<Event>)
    requires cfg.Watches() && !s3.status.supervised && s3.cancel == Some(0) && |s3.observers| == 1 && s3.used == {"", "1"}
    requires var o := s3.observers[0]; o.generation == "1" && o.point == Sleeping && o.probes == [true] && !o.down
    ensures Allowed(cfg, s3, run)
    ensures var s := After(cfg, s3, run);
            s.disk == Some("1") && s.status.generation == "2" && !s.status.supervised
  {
    var step, down := Advance(0, true, 0), Advance(0, false, 1);
    var s4 := Next(cfg, s3, Request("2", 0));
    var s6 := Next(cfg, Next(cfg, s4, step), down);
    assert s6.observers[0].point == ReportDip(1) && s6.observers[0].generation == "1" && s6.status == s4.status;
    var s8 := Next(cfg, Next(cfg, s6, step), step);
    assert s8.disk == Some("1") && s8.status == s4.status;
    run := Prepend(cfg, s6, step, step, []);
    run := Prepend(cfg, s4, step, down, run);
    PrependOne(cfg, s3, Request("2", 0), run);
    run := [Request("2", 0)] + run;
  }

  lemma PrependOne(cfg: Config, s: Sys, e: Event, run: seq<Event>)
    requires Enabled(cfg, s, e) && Allowed(cfg, Next(cfg, s, e), run)
    ensures Allowed(cfg, s, [e] + run) && After(cfg, s, [e] + run) == After(cfg, Next(cfg, s, e), run)
  {
    assert ([e] + run)[1..] == run;
  }

  lemma Prepend(cfg: Config, s: Sys, d: Event, e: Event, run: seq<Event>) returns (longer: seq<Event>)
    requires Enabled(cfg, s, d) && Enabled(cfg, Next(cfg, s, d), e)
    requires Allowed(cfg, Next(cfg, Next(cfg, s, d), e), run)
    ensures Allowed(cfg, s, longer) && After(cfg, s, longer) == After(cfg, Next(cfg, Next(cfg, s, d), e), run)
  {
    hide Enabled, Next;
    PrependOne(cfg, Next(cfg, s, d), e, run);
    PrependOne(cfg, s, d, [e] + run);
    longer := [d] + ([e] + run);
  }

  // ---- An observer by itself ----

  /** What one probe or one reading of the clock was. */
  datatype Reading = Reading(alive: bool, now: int)

  /** What observer i reads in a run, step by step. */
  function Own(run: seq<Event>, i: nat): seq<Reading>
    decreases |run|
  {
    if run == [] then []
    else (if run[0].Advance? && run[0].observer == i then [Reading(run[0].alive, run[0].now)] else []) + Own(run[1..], i)
  }

  /** An observer and a status of its own after its readings. */
  function Alone(cfg: Config, o: Observer, st: Status, readings: seq<Reading>): (Observer, Status)
    decreases |readings|
  {
    if readings == [] then (o, st)
    else Alone(cfg, Moved(cfg, o, readings[0].alive, readings[0].now), Reported(st, o), readings[1..])
  }

  /** The same observer, cancelled or not. */
  predicate Like(a: Observer, b: Observer) {
    a == b.(cancelled := a.cancelled)
  }

  lemma MovedLike(cfg: Config, a: Observer, b: Observer, alive: bool, now: int)
    requires Like(a, b)
    ensures Like(Moved(cfg, a, alive, now), Moved(cfg, b, alive, now))
  {
    assert a.point == b.point;
    if b.point.Probing? {
      ProbedLike(cfg, a, b, alive, now);
      hide Moved;
    } else {
      OnwardLike(a, b);
      hide Onward;
    }
  }

  lemma OnwardLike(a: Observer, b: Observer)
    requires Like(a, b)
    ensures forall at :: Onward(a, at) == Onward(b, at)
  {
  }

  lemma ProbedLike(cfg: Config, a: Observer, b: Observer, alive: bool, now: int)
    requires Like(a, b) && b.point.Probing?
    ensures Like(Moved(cfg, a, alive, now), Moved(cfg, b, alive, now))
  {
    OnwardLike(a, b);
    hide Onward;
  }

  /** What one step of a run makes of observer i, and of the status while i is the current one. */
  lemma StepIs(cfg: Config, s: Sys, e: Event, i: nat)
    requires Inv(cfg, s) && Enabled(cfg, s, e) && i < |s.observers| && !(e.Quit? && e.observer == i)
    ensures var t, o := Next(cfg, s, e), s.observers[i];
            && i < |t.observers|
            && Like(t.observers[i], if e.Advance? && e.observer == i then Moved(cfg, o, e.alive, e.now) else o)
            && (Current(t, i) ==> Current(s, i) && t.status == if e.Advance? && e.observer == i
                                                               then Reported(s.status, o) else s.status)
  {
    hide LocalOk, StatusOk;
    match e {
      case Request(generation, now) =>
      case Quit(k) =>
      case Advance(k, alive, now) =>
        MovedGeneration(cfg, s.observers[k], alive, now);
        GenerationStays(s.status, s.observers[k]);
        if k != i && s.observers[k].generation != s.status.generation {
          StaleReport(s.status, s.observers[k]);
        }
    }
    hide Moved, Reported;
  }

  lemma StaleReport(st: Status, o: Observer)
    requires o.generation != st.generation
    ensures Reported(st, o) == st
  {
  }

  /** Observer i does not give up in the run. */
  predicate Stays(run: seq<Event>, i: nat) {
    Quit(i) !in run
  }

  /** Whatever others do meanwhile, an observer is where its own readings take it, and so is the status as long as
      no other request comes. */
  lemma {:induction false} OwnStepsDecide(cfg: Config, s: Sys, run: seq<Event>, i: nat)
    requires Inv(cfg, s) && Allowed(cfg, s, run) && i < |s.observers| && Stays(run, i)
    ensures var t := After(cfg, s, run);
            var (o, st) := Alone(cfg, s.observers[i], s.status, Own(run, i));
            i < |t.observers| && Like(t.observers[i], o) && (Current(t, i) ==> Current(s, i) && t.status == st)
    decreases |run|
  {
    hide Inv, Moved, Reported;
    if run != [] {
      var e, t := run[0], Next(cfg, s, run[0]);
      assert forall d | d in run[1..] :: d in run;
      assert !(e.Quit? && e.observer == i);
      NextKeeps(cfg, s, e);
      StepIs(cfg, s, e, i);
      hide Next, Enabled;
      OwnStepsDecide(cfg, t, run[1..], i);
      var own := Own(run, i);
      if e.Advance? && e.observer == i {
        assert own == [Reading(e.alive, e.now)] + Own(run[1..], i);
        assert own[1..] == Own(run[1..], i);
      } else {
        assert own == Own(run[1..], i);
      }
      var o := if e.Advance? && e.observer == i then Moved(cfg, s.observers[i], e.alive, e.now) else s.observers[i];
      var st := if e.Advance? && e.observer == i then Reported(s.status, s.observers[i]) else s.status;
      AloneLike(cfg, t.observers[i], o, st, t.status, Own(run[1..], i));
    }
  }

  /** Where readings take an observer is the same whether it is cancelled; and the status too, if it was the same. */
  lemma {:induction false} AloneLike(cfg: Config, a: Observer, b: Observer, st: Status, su: Status,
                                     readings: seq<Reading>)
    requires Like(a, b)
    ensures Like(Alone(cfg, a, su, readings).0, Alone(cfg, b, st, readings).0)
    ensures st == su ==> Alone(cfg, a, su, readings).1 == Alone(cfg, b, st, readings).1
    decreases |readings|
  {
    if readings != [] {
      MovedLike(cfg, a, b, readings[0].alive, readings[0].now);
      ReportedLike(su, a, b);
      hide Moved, Reported;
      AloneLike(cfg, Moved(cfg, a, readings[0].alive, readings[0].now),
                Moved(cfg, b, readings[0].alive, readings[0].now), Reported(st, b), Reported(su, a), readings[1..]);
    }
  }

  lemma ReportedLike(st: Status, a: Observer, b: Observer)
    requires Like(a, b)
    ensures Reported(st, a) == Reported(st, b)
  {
  }

  /** A request makes its generation the status's, outstanding exactly if it can be watched, and forgets what was seen
      of the one before but not that there is a supervisor; it cancels the observer in flight, and starts one of its
      own, with nothing seen yet. */
  lemma RequestStarts(cfg: Config, s: Sys, generation: string, now: int)
    requires Inv(cfg, s) && Enabled(cfg, s, Request(generation, now))
    ensures var t := Next(cfg, s, Request(generation, now));
            && t.status == Status(if cfg.runDir && cfg.probe then Watching else Unverified, s.status.supervised,
                                  generation, Some(now), None, None)
            && t.disk == s.disk
            && (forall i: nat | Current(s, i) :: t.observers[i].cancelled && !(Current(t, i) && cfg.runDir))
            && (cfg.runDir && cfg.probe ==>
                  && |t.observers| == |s.observers| + 1
                  && var o := t.observers[|s.observers|];
                     o.generation == generation && !o.cancelled && o.point == Starting && o.probes == [])
            && (!(cfg.runDir && cfg.probe) ==> |t.observers| == |s.observers|)
  {
    hide LocalOk, StatusOk;
  }

  /** The current observer has not given up. */
  lemma {:induction false} CurrentStays(cfg: Config, s: Sys, run: seq<Event>, i: nat)
    requires Inv(cfg, s) && Allowed(cfg, s, run) && i < |s.observers| && Current(After(cfg, s, run), i)
    ensures Stays(run, i) && Current(s, i)
    decreases |run|
  {
    if !Current(s, i) {
      SupersededIsPowerless(cfg, s, run, i, true, 0);
    }
    if run != [] {
      NextKeeps(cfg, s, run[0]);
      MoreObservers(cfg, s, run[0]);
      CurrentStays(cfg, Next(cfg, s, run[0]), run[1..], i);
      assert run[0] != Quit(i);
      assert run == [run[0]] + run[1..];
    }
    hide Inv, Next, Enabled;
  }

  lemma MoreObservers(cfg: Config, s: Sys, e: Event)
    requires Enabled(cfg, s, e)
    ensures |Next(cfg, s, e).observers| >= |s.observers|
  {
    hide Moved, Reported;
  }

  /** A state some run of the program reaches. */
  ghost predicate Reachable(cfg: Config, s: Sys) {
    exists disk, run :: Allowed(cfg, Initial(cfg, disk), run) && After(cfg, Initial(cfg, disk), run) == s
  }

  lemma ReachableInv(cfg: Config, s: Sys)
    requires Reachable(cfg, s)
    ensures Inv(cfg, s)
  {
    var disk, run :| Allowed(cfg, Initial(cfg, disk), run) && After(cfg, Initial(cfg, disk), run) == s;
    InitialOk(cfg, disk);
    RunKeeps(cfg, Initial(cfg, disk), run);
  }

  /** The observer and the status at the end of a run in which that stays the current one. */
  lemma CurrentIs(cfg: Config, s: Sys, run: seq<Event>, i: nat)
    requires Reachable(cfg, s) && Allowed(cfg, s, run) && i < |s.observers| && Current(After(cfg, s, run), i)
    ensures var t := After(cfg, s, run);
            Current(s, i) && Inv(cfg, s) && Inv(cfg, t) && LocalOk(s.observers[i]) && StatusOk(s.status, s.observers[i])
            && LocalOk(t.observers[i]) && StatusOk(t.status, t.observers[i])
            && (t.observers[i], t.status) == Alone(cfg, s.observers[i], s.status, Own(run, i))
  {
    hide After, Allowed, Reachable, Alone, LocalOk, StatusOk;
    ReachableInv(cfg, s);
    CurrentStays(cfg, s, run, i);
    OwnStepsDecide(cfg, s, run, i);
    RunKeeps(cfg, s, run);
    AloneCancelled(cfg, s.observers[i], s.status, Own(run, i));
  }

  lemma {:induction false} AloneCancelled(cfg: Config, o: Observer, st: Status, readings: seq<Reading>)
    ensures Alone(cfg, o, st, readings).0.cancelled == o.cancelled
    decreases |readings|
  {
    if readings != [] {
      MovedCancelled(cfg, o, readings[0].alive, readings[0].now);
      hide Moved, Reported;
      AloneCancelled(cfg, Moved(cfg, o, readings[0].alive, readings[0].now), Reported(st, o), readings[1..]);
    }
  }

  lemma MovedCancelled(cfg: Config, o: Observer, alive: bool, now: int)
    ensures Moved(cfg, o, alive, now).cancelled == o.cancelled
  {
  }

  lemma AloneNext(cfg: Config, o: Observer, st: Status, readings: seq<Reading>)
    requires readings != []
    ensures Alone(cfg, o, st, readings)
            == Alone(cfg, Moved(cfg, o, readings[0].alive, readings[0].now), Reported(st, o), readings[1..])
  {
  }

  lemma {:induction false} AloneDone(cfg: Config, o: Observer, st: Status, readings: seq<Reading>)
    requires o.point == Done
    ensures Alone(cfg, o, st, readings) == (o, st)
    decreases |readings|
  {
    if readings != [] {
      AloneDone(cfg, o, st, readings[1..]);
    }
  }

  /** An observer that has set its deadline keeps it, and loses no probe. */
  lemma {:induction false} AloneKeeps(cfg: Config, o: Observer, st: Status, readings: seq<Reading>)
    requires o.point != Starting
    ensures var u := Alone(cfg, o, st, readings).0;
            u.point != Starting && u.deadline == o.deadline && o.probes <= u.probes
    decreases |readings|
  {
    if readings != [] {
      MovedDeadline(cfg, o, readings[0].alive, readings[0].now);
      hide Moved, Reported;
      AloneKeeps(cfg, Moved(cfg, o, readings[0].alive, readings[0].now), Reported(st, o), readings[1..]);
    }
  }

  lemma MovedDeadline(cfg: Config, o: Observer, alive: bool, now: int)
    requires o.point != Starting
    ensures var u := Moved(cfg, o, alive, now);
            u.point != Starting && u.deadline == o.deadline && o.probes <= u.probes
  {
  }

  // ---- Every observation comes to an end ----

  /** An observation's deadline is the window after it began, and stays so. */
  lemma DeadlineIsSet(cfg: Config, s: Sys, run: seq<Event>, i: nat)
    requires Reachable(cfg, s) && Allowed(cfg, s, run) && i < |s.observers| && Current(After(cfg, s, run), i)
    requires s.observers[i].point == Starting && Own(run, i) != []
    ensures After(cfg, s, run).observers[i].deadline == Own(run, i)[0].now + cfg.window
  {
    CurrentIs(cfg, s, run, i);
    var own, o := Own(run, i), s.observers[i];
    AloneNext(cfg, o, s.status, own);
    AloneKeeps(cfg, Moved(cfg, o, own[0].alive, own[0].now), Reported(s.status, o), own[1..]);
    hide After, Allowed, Own, Inv, Alone;
  }

  /** The current observation is over, or takes another probe, within four of its own steps. */
  lemma KeepsProbing(cfg: Config, s: Sys, run: seq<Event>, i: nat)
    requires Reachable(cfg, s) && Allowed(cfg, s, run) && i < |s.observers| && Current(After(cfg, s, run), i)
    requires |Own(run, i)| >= 4
    ensures var o := After(cfg, s, run).observers[i];
            o.point == Done || |o.probes| > |s.observers[i].probes|
  {
    CurrentIs(cfg, s, run, i);
    hide After, Allowed, Own, Inv, LocalOk, StatusOk, Reachable;
    ProbesOrEnds(cfg, s.observers[i], s.status, Own(run, i), 4);
  }

  /** How many steps an observer is from its next probe, at most, counting that. */
  function ToProbe(p: Point): nat {
    match p
    case Done => 0
    case Probing => 1
    case Baseline => 1
    case Sleeping => 2
    case Starting => 2
    case ReportDown(_) => 3
    case PersistDip(_) => 3
    case ReportDip(_) => 4
    case ReportBack(_) => 2
    case PersistBack => 1
    case ReportNoSupervisor => 1
    case ReportUnverified => 1
  }

  lemma {:induction false} ProbesOrEnds(cfg: Config, o: Observer, st: Status, readings: seq<Reading>, n: nat)
    requires ToProbe(o.point) <= n <= |readings|
    ensures var u := Alone(cfg, o, st, readings).0;
            u.point == Done || |u.probes| > |o.probes|
    decreases n
  {
    if o.point == Done {
      AloneDone(cfg, o, st, readings);
    } else {
      var next := Moved(cfg, o, readings[0].alive, readings[0].now);
      AloneNext(cfg, o, st, readings);
      NearerToProbe(cfg, o, readings[0].alive, readings[0].now);
      hide Moved, Reported, Alone;
      if |next.probes| > |o.probes| {
        AloneKeeps(cfg, next, Reported(st, o), readings[1..]);
      } else {
        ProbesOrEnds(cfg, next, Reported(st, o), readings[1..], n - 1);
      }
    }
  }

  lemma NearerToProbe(cfg: Config, o: Observer, alive: bool, now: int)
    requires o.point != Done
    ensures var next := Moved(cfg, o, alive, now);
            if |next.probes| > |o.probes| then next.point != Starting
            else next.probes == o.probes && ToProbe(next.point) < ToProbe(o.point)
  {
  }

  /** The verdict that the probes of a whole observation make. */
  function Verdict(probes: seq<bool>): State {
    if AllAlive(probes) then NoSupervisor else if AllDown(probes) then Unverified else Confirmed
  }

  /** A probe of the current observation at or past the deadline ends it, as does one that finds the engine back: within
      two more of its own steps it is done, and the status is what its probes say. */
  lemma ProbeEnds(cfg: Config, s: Sys, run: seq<Event>, i: nat)
    requires Reachable(cfg, s) && Allowed(cfg, s, run) && i < |s.observers| && Current(After(cfg, s, run), i)
    requires s.observers[i].point == Probing && |Own(run, i)| >= 3
    requires Own(run, i)[0].now >= s.observers[i].deadline || (Own(run, i)[0].alive && false in s.observers[i].probes)
    ensures var t, o, r := After(cfg, s, run), s.observers[i], Own(run, i)[0];
            && t.observers[i].point == Done && t.observers[i].probes == o.probes + [r.alive]
            && t.status.state == Verdict(o.probes + [r.alive])
            && t.status == Concluded(s.status, o.probes, r)
            && (t.status.Relaunching() <==> !r.alive && true in o.probes)
            && (t.status.Relaunch() == if r.alive && false in o.probes then Some((t.status.generation, r.now)) else None)
  {
    CurrentIs(cfg, s, run, i);
    var o, own := s.observers[i], Own(run, i);
    hide After, Allowed, Own, Inv, Reachable;
    EndsAlone(cfg, o, s.status, own);
    DoneIsVerdict(After(cfg, s, run).status, After(cfg, s, run).observers[i]);
    StatusWhileProbing(s.status, o);
    hide LocalOk, StatusOk, Alone, Verdict;
  }

  /** The status once an observation is over: the engine back, gone at last, never gone, gone before and not back, or
      never up. */
  function Concluded(st: Status, before: seq<bool>, r: Reading): Status {
    if r.alive && false in before then st.(state := Confirmed, backAt := Some(r.now), supervised := true)
    else if !r.alive && false !in before then st.(state := Confirmed, downAt := Some(r.now), supervised := true)
    else if r.alive then st.(state := NoSupervisor)
    else if true in before then st
    else st.(state := Unverified)
  }

  lemma StatusWhileProbing(st: Status, o: Observer)
    requires LocalOk(o) && StatusOk(st, o) && o.point == Probing
    ensures st.backAt == None && o.probes != []
    ensures st.state == if o.confirmed then Confirmed else Watching
    ensures o.confirmed <==> true in o.probes && false in o.probes
    ensures true in o.probes || false in o.probes
  {
    if o.probes[0] {
      assert true in o.probes;
    } else {
      assert false in o.probes;
    }
    if !o.confirmed && o.down {
      assert AllDown(o.probes);
    }
  }

  /** Where three readings that end an observer take it, and the status. */
  lemma ThreeSteps(cfg: Config, o: Observer, st: Status, own: seq<Reading>)
    requires |own| >= 3
    ensures var one := Moved(cfg, o, own[0].alive, own[0].now);
            var two := Moved(cfg, one, own[1].alive, own[1].now);
            var three := Moved(cfg, two, own[2].alive, own[2].now);
            three.point == Done ==>
              Alone(cfg, o, st, own) == (three, Reported(Reported(Reported(st, o), one), two))
  {
    hide Moved, Reported;
    var one := Moved(cfg, o, own[0].alive, own[0].now);
    AloneNext(cfg, o, st, own);
    var two := Moved(cfg, one, own[1].alive, own[1].now);
    AloneNext(cfg, one, Reported(st, o), own[1..]);
    var three := Moved(cfg, two, own[2].alive, own[2].now);
    AloneNext(cfg, two, Reported(Reported(st, o), one), own[1..][1..]);
    if three.point == Done {
      AloneDone(cfg, three, Reported(Reported(Reported(st, o), one), two), own[1..][1..][1..]);
    }
    hide Alone;
  }

  lemma EndsAlone(cfg: Config, o: Observer, st: Status, own: seq<Reading>)
    requires LocalOk(o) && StatusOk(st, o) && st.generation == o.generation && o.point == Probing && |own| >= 3
    requires own[0].now >= o.deadline || (own[0].alive && false in o.probes)
    ensures var (u, su) := Alone(cfg, o, st, own);
            && u.point == Done && u.probes == o.probes + [own[0].alive] && su == Concluded(st, o.probes, own[0])
  {
    FalseMeansDown(o);
    StatusWhileProbing(st, o);
    ThreeSteps(cfg, o, st, own);
    hide LocalOk, StatusOk, Alone;
    var r := own[0];
    if r.alive && o.down {
      BackEnds(cfg, o, st, own);
    } else if !r.alive && !o.down {
      DipEnds(cfg, o, st, own);
    } else {
      QuietEnds(cfg, o, st, own);
    }
    hide Moved, Reported;
  }

  lemma BackEnds(cfg: Config, o: Observer, st: Status, own: seq<Reading>)
    requires |own| >= 3 && o.point == Probing && own[0].alive && o.down && st.generation == o.generation
    ensures var one := Moved(cfg, o, own[0].alive, own[0].now);
            var two := Moved(cfg, one, own[1].alive, own[1].now);
            var three := Moved(cfg, two, own[2].alive, own[2].now);
            && three.point == Done && three.probes == o.probes + [own[0].alive]
            && Reported(Reported(Reported(st, o), one), two)
               == st.(state := Confirmed, backAt := Some(own[0].now), supervised := true)
  {
  }

  lemma DipEnds(cfg: Config, o: Observer, st: Status, own: seq<Reading>)
    requires |own| >= 3 && o.point == Probing && !own[0].alive && !o.down && st.generation == o.generation
    requires own[0].now >= o.deadline
    ensures var one := Moved(cfg, o, own[0].alive, own[0].now);
            var two := Moved(cfg, one, own[1].alive, own[1].now);
            var three := Moved(cfg, two, own[2].alive, own[2].now);
            && three.point == Done && three.probes == o.probes + [own[0].alive]
            && Reported(Reported(Reported(st, o), one), two)
               == st.(state := Confirmed, downAt := Some(own[0].now), supervised := true)
  {
  }

  lemma QuietEnds(cfg: Config, o: Observer, st: Status, own: seq<Reading>)
    requires |own| >= 3 && o.point == Probing && (own[0].alive <==> !o.down) && st.generation == o.generation
    requires own[0].now >= o.deadline
    ensures var one := Moved(cfg, o, own[0].alive, own[0].now);
            var two := Moved(cfg, one, own[1].alive, own[1].now);
            var three := Moved(cfg, two, own[2].alive, own[2].now);
            && three.point == Done && three.probes == o.probes + [own[0].alive]
            && Reported(Reported(Reported(st, o), one), two)
               == if !o.down then st.(state := NoSupervisor) else if o.confirmed then st else st.(state := Unverified)
  {
  }

  /** Between probes an observer holds the engine for down exactly if some probe found it down. */
  lemma FalseMeansDown(o: Observer)
    requires LocalOk(o) && (o.point == Probing || o.point == Sleeping)
    ensures o.down <==> false in o.probes
    ensures o.probes != []
  {
    if o.down && !o.confirmed {
      assert !o.probes[0];
    }
  }

  lemma DoneIsVerdict(st: Status, o: Observer)
    requires StatusOk(st, o) && o.point == Done
    ensures st.state == Verdict(o.probes)
  {
    assert AllDown(o.probes) && o.probes != [] ==> !o.probes[0];
    assert Mixed(o.probes) ==> exists j, k :: 0 <= j < |o.probes| && 0 <= k < |o.probes| && o.probes[j] && !o.probes[k];
  }

  /** One before the deadline that does not find it back leaves the observation going on, asleep until the next: at
      once, or after two more steps if it is the first to find the engine down, which confirms the restart. */
  lemma ProbeGoesOn(cfg: Config, s: Sys, run: seq<Event>, i: nat)
    requires Reachable(cfg, s) && Allowed(cfg, s, run) && i < |s.observers| && Current(After(cfg, s, run), i)
    requires s.observers[i].point == Probing && Own(run, i) != []
    requires var o, r := s.observers[i], Own(run, i)[0];
             r.now < o.deadline && !(r.alive && false in o.probes)
             && |Own(run, i)| == if !r.alive && false !in o.probes then 3 else 1
    ensures var t, o, r := After(cfg, s, run), s.observers[i], Own(run, i)[0];
            && t.observers[i].point == Sleeping && t.observers[i].probes == o.probes + [r.alive]
            && t.status.Relaunching() && t.status.Relaunch() == None
            && if !r.alive && false !in o.probes then
                 t.status.state == Confirmed && t.status.downAt == Some(r.now) && t.status.supervised
               else t.status == s.status
  {
    CurrentIs(cfg, s, run, i);
    var o, own := s.observers[i], Own(run, i);
    hide After, Allowed, Own, Inv, Reachable;
    FalseMeansDown(o);
    hide LocalOk, StatusOk;
    var one := Moved(cfg, o, own[0].alive, own[0].now);
    AloneNext(cfg, o, s.status, own);
    if !own[0].alive && false !in o.probes {
      AloneNext(cfg, one, Reported(s.status, o), own[1..]);
      var two := Moved(cfg, one, own[1].alive, own[1].now);
      AloneNext(cfg, two, Reported(Reported(s.status, o), one), own[1..][1..]);
    }
  }

  /** The first probe never ends it; one that finds the engine down dates that. */
  lemma FirstProbeGoesOn(cfg: Config, s: Sys, run: seq<Event>, i: nat)
    requires Reachable(cfg, s) && Allowed(cfg, s, run) && i < |s.observers| && Current(After(cfg, s, run), i)
    requires s.observers[i].point == Baseline && Own(run, i) != []
    requires |Own(run, i)| == if Own(run, i)[0].alive then 1 else 2
    ensures var t, r := After(cfg, s, run), Own(run, i)[0];
            && t.observers[i].point == Sleeping && t.observers[i].probes == [r.alive]
            && t.status.Relaunching() && t.status.Relaunch() == None
            && t.status == if r.alive then s.status else s.status.(downAt := Some(r.now))
  {
    CurrentIs(cfg, s, run, i);
    var o, own := s.observers[i], Own(run, i);
    hide After, Allowed, Own, Inv, Reachable;
    assert o.probes == [];
    hide LocalOk, StatusOk;
    var one := Moved(cfg, o, own[0].alive, own[0].now);
    AloneNext(cfg, o, s.status, own);
    if !own[0].alive {
      AloneNext(cfg, one, Reported(s.status, o), own[1..]);
    }
  }

  // ---- The tracker as the program holds it ----

  /** What a caller learns at once. */
  datatype Receipt = Receipt(signaled: bool, generation: string, supervised: bool)

  class Tracker {
    const cfg: Config
    var status: Status
    var cancel: Option<nat>
    var observers: seq<Observer>
    var disk: Option<string>
    ghost var used: set<string>
    ghost var credited: set<nat>
    ghost var persisted: set<nat>

    ghost function Snapshot(): Sys
      reads this
    {
      Sys(status, cancel, observers, disk, used, credited, persisted)
    }

    constructor (cfg: Config, disk: Option<string>)
      ensures this.cfg == cfg && Snapshot() == Initial(cfg, disk) && Inv(cfg, Snapshot())
    {
      this.cfg := cfg;
      var record := if cfg.runDir then disk else None;
      this.status := Status(Idle, record.Some?, "", None, None, None);
      this.cancel, this.observers, this.disk, this.used := None, [], record, {""};
      this.credited, this.persisted := {}, {};
    }

    /** Takes over from whatever observation is in flight; the receipt tells only what was known before. */
    method Request(generation: string, now: int) returns (receipt: Receipt)
      requires Inv(cfg, Snapshot()) && Enabled(cfg, Snapshot(), Event.Request(generation, now))
      modifies this
      ensures Snapshot() == Requested(cfg, old(Snapshot()), generation, now) && Inv(cfg, Snapshot())
      ensures receipt == Receipt(cfg.runDir, generation, old(status).supervised)
      ensures status.Relaunching() <==> cfg.Watches()
    {
      RequestKeeps(cfg, Snapshot(), generation, now);
      observers := CancelOld(observers, cancel);
      cancel := None;
      status := status.(generation := generation, requestedAt := Some(now), downAt := None, backAt := None);
      if !cfg.probe || !cfg.runDir {
        status := status.(state := Unverified);
      } else {
        status := status.(state := Watching);
      }
      receipt := Receipt(cfg.runDir, generation, status.supervised);
      if status.state == Watching {
        cancel := Some(|observers|);
        observers := observers + [Observer(generation, false, Starting, 0, false, false, 0, [])];
      }
      used := used + {generation};
    }

    method Settle(generation: string, mutate: Status -> Status)
      modifies this`status
      ensures status == Settled(old(status), generation, mutate)
    {
      if status.generation != generation {
        return;
      }
      status := mutate(status);
    }

    /** The next step of one observer's loop, with what its probe or its clock would read there. */
    method Observe(i: nat, alive: bool, now: int)
      requires Inv(cfg, Snapshot()) && i < |observers|
      modifies this`status, this`observers, this`disk, this`credited, this`persisted
      ensures Snapshot() == Advanced(cfg, old(Snapshot()), i, alive, now) && Inv(cfg, Snapshot())
    {
      hide Inv, LocalOk, StatusOk;
      AdvanceKeeps(cfg, Snapshot(), i, alive, now);
      var o := observers[i];
      credited := if ReportsEdge(o) && o.generation == status.generation then credited + {i} else credited;
      persisted := if Persists(o) then persisted + {i} else persisted;
      match o.point {
        case ReportDown(at) =>
          Settle(o.generation, (s: Status) => s.(downAt := Some(at)));
        case ReportDip(at) =>
          Settle(o.generation, (s: Status) => s.(state := Confirmed, downAt := Some(at), supervised := true));
        case ReportBack(at) =>
          Settle(o.generation, (s: Status) => s.(state := Confirmed, backAt := Some(at), supervised := true));
        case ReportNoSupervisor =>
          Settle(o.generation, (s: Status) => s.(state := NoSupervisor));
        case ReportUnverified =>
          Settle(o.generation, (s: Status) => s.(state := Unverified));
        case PersistDip(_) =>
          disk := Some(o.generation);
        case PersistBack =>
          disk := Some(o.generation);
        case _ =>
      }
      observers := observers[i := Moved(cfg, o, alive, now)];
    }
  }
}
