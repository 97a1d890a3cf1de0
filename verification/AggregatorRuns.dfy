/** What the aggregator's counters say after any run of progress lines and flushes. */
module AggregatorRuns {
  import opened Numbers
  import opened Labels
  import opened Aggregator

  datatype Step = Progress(ev: Event) | Flush

  ghost function AfterStep(s: State, index: Index, step: Step): (r: State)
    requires s.Valid()
    ensures r.Valid()
  {
    match step
    case Progress(ev) => AfterProgress(s, index, ev)
    case Flush => AfterFlush(s)
  }

  ghost function After(index: Index, steps: seq<Step>): (s: State)
    ensures s.Valid()
  {
    if steps == [] then START else AfterStep(After(index, steps[..|steps| - 1]), index, steps[|steps| - 1])
  }

  // ---- Sums over bars and over what the sink was told ----

  function SumBars(bars: seq<Bar>, f: Bar -> int): int {
    if bars == [] then 0 else SumBars(bars[..|bars| - 1], f) + f(bars[|bars| - 1])
  }

  function SumCalls(calls: seq<Call>, g: Call -> int): int {
    if calls == [] then 0 else SumCalls(calls[..|calls| - 1], g) + g(calls[|calls| - 1])
  }

  /** All paths, or one of them. */
  predicate Of(path: string, which: Option<string>) {
    which == None || which == Some(path)
  }

  function BarBytes(which: Option<string>): Bar -> int {
    (b: Bar) => if Of(b.path, which) then b.downloaded else 0
  }

  function CallBytes(which: Option<string>): Call -> int {
    (c: Call) => if c.FileBytes? && Of(c.path, which) then c.delta else 0
  }

  function BarDone(which: Option<string>): Bar -> int {
    (b: Bar) => if Of(b.path, which) && b.completed then 1 else 0
  }

  function CallDone(which: Option<string>): Call -> int {
    (c: Call) => if c.FileDone? && Of(c.path, which) then 1 else 0
  }

  function BarTotal(): Bar -> int {
    (b: Bar) => b.total
  }

  lemma {:induction false} SumBarsUpdate(bars: seq<Bar>, i: nat, b: Bar, f: Bar -> int)
    requires i < |bars|
    ensures SumBars(bars[i := b], f) == SumBars(bars, f) - f(bars[i]) + f(b)
  {
    var n := |bars| - 1;
    if i == n {
      assert bars[i := b][..n] == bars[..n];
    } else {
      assert bars[i := b][..n] == bars[..n][i := b];
      SumBarsUpdate(bars[..n], i, b, f);
    }
  }

  lemma SumBarsAppend(bars: seq<Bar>, b: Bar, f: Bar -> int)
    ensures SumBars(bars + [b], f) == SumBars(bars, f) + f(b)
  {
    assert (bars + [b])[..|bars|] == bars;
  }

  lemma {:induction false} SumBarsCompare(a: seq<Bar>, b: seq<Bar>, f: Bar -> int)
    requires |a| == |b| && forall i | 0 <= i < |a| :: f(a[i]) <= f(b[i])
    ensures SumBars(a, f) <= SumBars(b, f)
  {
    if a != [] {
      SumBarsCompare(a[..|a| - 1], b[..|a| - 1], f);
    }
  }

  lemma {:induction false} SumCallsConcat(a: seq<Call>, b: seq<Call>, g: Call -> int)
    ensures SumCalls(a + b, g) == SumCalls(a, g) + SumCalls(b, g)
    decreases |b|
  {
    if b == [] {
      assert a + b == a;
    } else {
      var n := |b| - 1;
      assert (a + b)[..|a + b| - 1] == a + b[..n];
      SumCallsConcat(a, b[..n], g);
    }
  }

  lemma SumCallsOne(c: Call, g: Call -> int)
    ensures SumCalls([c], g) == g(c)
  {
    assert [c][..0] == [];
  }

  /** The parts of what a line tells the sink. */
  lemma SumOfTold(bar: Bar, ev: Event, g: Call -> int)
    ensures SumCalls(Told(bar, ev), g) == SumCalls(StartTold(bar, ev), g) + SumCalls(BytesTold(bar, ev), g)
                                        + SumCalls(DoneTold(Filled(bar, ev)), g)
    ensures forall x :: SumCalls([x], g) == g(x)
    ensures SumCalls([], g) == 0
  {
    hide StartTold, BytesTold, DoneTold, Filled;
    SumCallsConcat(StartTold(bar, ev) + BytesTold(bar, ev), DoneTold(Filled(bar, ev)), g);
    SumCallsConcat(StartTold(bar, ev), BytesTold(bar, ev), g);
    forall x ensures SumCalls([x], g) == g(x) { SumCallsOne(x, g); }
  }

  /** A line tells the sink of exactly the bytes its bar gains. */
  lemma ToldIsGained(bar: Bar, ev: Event, which: Option<string>)
    ensures SumCalls(Told(bar, ev), CallBytes(which)) == BarBytes(which)(Ticked(bar, ev)) - BarBytes(which)(bar)
  {
    hide Told, SumCalls, TotalDelta;
    SumOfTold(bar, ev, CallBytes(which));
  }

  /** And that the bar is done exactly when it becomes so. */
  lemma ToldWhenDone(bar: Bar, ev: Event, which: Option<string>)
    ensures SumCalls(Told(bar, ev), CallDone(which)) == BarDone(which)(Ticked(bar, ev)) - BarDone(which)(bar)
  {
    hide Told, SumCalls, TotalDelta, ByteDelta, Full;
    SumOfTold(bar, ev, CallDone(which));
  }

  lemma NothingToldOfFiles(ev: Event, which: Option<string>)
    ensures SumCalls(FilesTold(ev), CallBytes(which)) == 0 && SumCalls(FilesTold(ev), CallDone(which)) == 0
  {
    forall n: int
      ensures SumCalls([FilesTotal(n)], CallBytes(which)) == 0 && SumCalls([FilesTotal(n)], CallDone(which)) == 0
    {
      SumCallsOne(FilesTotal(n), CallBytes(which));
      SumCallsOne(FilesTotal(n), CallDone(which));
    }
  }

  // ---- Every run ----

  /** The sink was told of every byte counted, and of a bar being done for at most each completed one. */
  ghost predicate Accounted(s: State, which: Option<string>) {
    && SumBars(s.bars, BarBytes(which)) == SumCalls(s.calls, CallBytes(which))
    && SumCalls(s.calls, CallDone(which)) <= SumBars(s.bars, BarDone(which))
    && s.bytes == SumBars(s.bars, BarBytes(None))
  }

  lemma RoutedAccounts(s: State, index: Index, ev: Event, which: Option<string>)
    requires s.Valid()
    ensures var (r, i) := Routed(s, index, ev);
            r.calls == s.calls && r.bytes == s.bytes && r.total == s.total &&
            SumBars(r.bars, BarBytes(which)) == SumBars(s.bars, BarBytes(which)) &&
            SumBars(r.bars, BarDone(which)) == SumBars(s.bars, BarDone(which))
  {
    hide Lookup, IsNextBar, SumBars;
    forall path ensures SumBars(s.bars + [NewBar(path)], BarBytes(which)) == SumBars(s.bars, BarBytes(which))
      ensures SumBars(s.bars + [NewBar(path)], BarDone(which)) == SumBars(s.bars, BarDone(which))
    {
      SumBarsAppend(s.bars, NewBar(path), BarBytes(which));
      SumBarsAppend(s.bars, NewBar(path), BarDone(which));
    }
  }

  lemma ProgressAccounts(s: State, index: Index, ev: Event, which: Option<string>)
    requires s.Valid() && Accounted(s, which)
    ensures var r := AfterProgress(s, index, ev);
            Accounted(r, which) &&
            SumCalls(r.calls, CallDone(which)) - SumCalls(s.calls, CallDone(which))
              == SumBars(r.bars, BarDone(which)) - SumBars(s.bars, BarDone(which))
  {
    hide SumBars, SumCalls, Ticked, Told, Routed, FilesTold, TotalDelta;
    if !Counted(ev) {
      NothingToldOfFiles(ev, which);
      SumCallsConcat(s.calls, FilesTold(ev), CallBytes(which));
      SumCallsConcat(s.calls, FilesTold(ev), CallDone(which));
    } else {
      var (routed, i) := Routed(s, index, ev);
      RoutedAccounts(s, index, ev, which);
      RoutedAccounts(s, index, ev, None);
      var bar := routed.bars[i];
      ToldIsGained(bar, ev, which);
      ToldWhenDone(bar, ev, which);
      GainedIsDelta(bar, ev);
      SumBarsUpdate(routed.bars, i, Ticked(bar, ev), BarBytes(which));
      SumBarsUpdate(routed.bars, i, Ticked(bar, ev), BarBytes(None));
      SumBarsUpdate(routed.bars, i, Ticked(bar, ev), BarDone(which));
      SumCallsConcat(routed.calls, Told(bar, ev), CallBytes(which));
      SumCallsConcat(routed.calls, Told(bar, ev), CallDone(which));
    }
  }

  lemma GainedIsDelta(bar: Bar, ev: Event)
    ensures BarBytes(None)(Ticked(bar, ev)) - BarBytes(None)(bar) == ByteDelta(bar, ev)
  {
  }

  lemma FlushAccounts(s: State, which: Option<string>)
    requires s.Valid() && Accounted(s, which)
    ensures Accounted(AfterFlush(s), which)
  {
    hide SumBars, SumCalls;
    var r := AfterFlush(s);
    SumBarsCompare(s.bars, r.bars, BarBytes(which));
    SumBarsCompare(r.bars, s.bars, BarBytes(which));
    SumBarsCompare(s.bars, r.bars, BarBytes(None));
    SumBarsCompare(r.bars, s.bars, BarBytes(None));
    SumBarsCompare(s.bars, r.bars, BarDone(which));
  }

  /** After any run, the byte counter is the sum of the final counts of all bars there ever were, and the
      bytes the sink was told of, for each path and in all, are what its bars counted. Done is told at most
      once for each completed bar, and exactly once without a flush. */
  lemma {:induction false} EveryByteIsAccounted(index: Index, steps: seq<Step>, which: Option<string>)
    ensures var s := After(index, steps);
            && s.bytes == SumBars(s.bars, BarBytes(None))
            && SumBars(s.bars, BarBytes(which)) == SumCalls(s.calls, CallBytes(which))
            && SumCalls(s.calls, CallDone(which)) <= SumBars(s.bars, BarDone(which))
            && (Flush !in steps ==> SumCalls(s.calls, CallDone(which)) == SumBars(s.bars, BarDone(which)))
  {
    hide AfterProgress, AfterFlush;
    if steps != [] {
      var n := |steps| - 1;
      EveryByteIsAccounted(index, steps[..n], which);
      var s := After(index, steps[..n]);
      assert Accounted(s, which);
      match steps[n]
      case Progress(ev) => ProgressAccounts(s, index, ev, which);
      case Flush => FlushAccounts(s, which);
    }
  }

  // ---- Totals ----

  predicate NoNegativeTotals(steps: seq<Step>) {
    forall step | step in steps && step.Progress? :: step.ev.total >= 0
  }

  function CallTotal(): Call -> int {
    (c: Call) => if c.FileStart? then c.total else 0
  }

  ghost predicate TotalsAccounted(s: State) {
    && s.total == SumBars(s.bars, BarTotal()) == SumCalls(s.calls, CallTotal())
    && forall i | 0 <= i < |s.bars| :: s.bars[i].total >= 0 && (!s.bars[i].started ==> s.bars[i].total == 0)
  }

  lemma ToldOfTotal(bar: Bar, ev: Event)
    requires ev.total >= 0 && bar.total >= 0 && (!bar.started ==> bar.total == 0)
    ensures SumCalls(Told(bar, ev), CallTotal()) == TotalDelta(bar, ev) == Ticked(bar, ev).total - bar.total
    ensures Ticked(bar, ev).total >= 0 && Ticked(bar, ev).started
  {
    hide Told, SumCalls, Full, ByteDelta;
    SumOfTold(bar, ev, CallTotal());
  }

  lemma RoutedAccountsTotals(s: State, index: Index, ev: Event)
    requires s.Valid() && TotalsAccounted(s)
    ensures TotalsAccounted(Routed(s, index, ev).0)
  {
    hide Lookup, IsNextBar, SumBars, SumCalls;
    forall path ensures SumBars(s.bars + [NewBar(path)], BarTotal()) == SumBars(s.bars, BarTotal()) {
      SumBarsAppend(s.bars, NewBar(path), BarTotal());
    }
  }

  lemma TickAccountsTotals(s: State, i: nat, ev: Event)
    requires s.Valid() && TotalsAccounted(s) && i < |s.bars| && ev.total >= 0
    ensures TotalsAccounted(TickBar(s, i, ev))
  {
    hide SumBars, SumCalls, Ticked, Told, TotalDelta, ByteDelta;
    ToldOfTotal(s.bars[i], ev);
    SumBarsUpdate(s.bars, i, Ticked(s.bars[i], ev), BarTotal());
    SumCallsConcat(s.calls, Told(s.bars[i], ev), CallTotal());
  }

  lemma FilesToldOfTotal(ev: Event)
    ensures SumCalls(FilesTold(ev), CallTotal()) == 0
  {
    forall n: int ensures SumCalls([FilesTotal(n)], CallTotal()) == 0 { SumCallsOne(FilesTotal(n), CallTotal()); }
  }

  lemma ProgressAccountsTotals(s: State, index: Index, ev: Event)
    requires s.Valid() && TotalsAccounted(s) && ev.total >= 0
    ensures TotalsAccounted(AfterProgress(s, index, ev))
  {
    if !Counted(ev) {
      hide SumBars, SumCalls, FilesTold, BarTotal, CallTotal;
      FilesToldOfTotal(ev);
      SumCallsConcat(s.calls, FilesTold(ev), CallTotal());
    } else {
      hide TotalsAccounted, Routed, TickBar;
      RoutedAccountsTotals(s, index, ev);
      TickAccountsTotals(Routed(s, index, ev).0, Routed(s, index, ev).1, ev);
    }
  }

  lemma FlushAccountsTotals(s: State)
    requires s.Valid() && TotalsAccounted(s)
    ensures TotalsAccounted(AfterFlush(s))
  {
    hide SumBars, SumCalls;
    var r := AfterFlush(s);
    SumBarsCompare(s.bars, r.bars, BarTotal());
    SumBarsCompare(r.bars, s.bars, BarTotal());
  }

  /** After any run whose lines show no negative total, the total counter is the sum of the totals of all
      bars there ever were, and of what the sink was told when they started or grew. */
  lemma {:induction false} EveryTotalIsAccounted(index: Index, steps: seq<Step>)
    requires NoNegativeTotals(steps)
    ensures TotalsAccounted(After(index, steps))
  {
    if steps != [] {
      hide AfterProgress, AfterFlush, TotalsAccounted;
      var n := |steps| - 1;
      assert steps[n] in steps && forall step | step in steps[..n] :: step in steps;
      EveryTotalIsAccounted(index, steps[..n]);
      var s := After(index, steps[..n]);
      match steps[n]
      case Progress(ev) => ProgressAccountsTotals(s, index, ev);
      case Flush => FlushAccountsTotals(s);
    }
  }

  // ---- What the lines of a run say ----

  /** What a line counts: a listed file, or the label of one that cannot be named. */
  datatype Key = Path(path: string) | Label(text: string)

  function KeyOf(index: Index, step: Step): Option<Key> {
    if step.Progress? && Counted(step.ev) then
      match Lookup(index, step.ev.text, step.ev.total)
      case Some(path) => Some(Path(path))
      case None => Some(Label(step.ev.text))
    else None
  }

  lemma KeyedIsProgress(index: Index, step: Step)
    ensures KeyOf(index, step).Some? ==> step.Progress? && Counted(step.ev)
  {
  }

  function Reading(step: Step, ofTotal: bool): int
    requires step.Progress?
  {
    if ofTotal then step.ev.total else step.ev.downloaded
  }

  /** The highest count, or total, any line of the key has shown; zero when none did. */
  function Highest(index: Index, steps: seq<Step>, key: Key, ofTotal: bool): nat {
    if steps == [] then 0
    else
      var before := Highest(index, steps[..|steps| - 1], key, ofTotal);
      var last := steps[|steps| - 1];
      if KeyOf(index, last) == Some(key) && Reading(last, ofTotal) > before then Reading(last, ofTotal) else before
  }

  predicate Seen(index: Index, steps: seq<Step>, key: Key) {
    steps != [] && (Seen(index, steps[..|steps| - 1], key) || KeyOf(index, steps[|steps| - 1]) == Some(key))
  }

  predicate Meets(index: Index, steps: seq<Step>, key: Key) {
    Highest(index, steps, key, false) >= Highest(index, steps, key, true) > 0
  }

  /** At some moment of the run the highest count met the highest total. */
  predicate Reached(index: Index, steps: seq<Step>, key: Key) {
    steps != [] && (Reached(index, steps[..|steps| - 1], key) || Meets(index, steps, key))
  }

  /** It did, or there was a flush after the first line. */
  predicate Closed(index: Index, steps: seq<Step>, key: Key) {
    steps != [] && (Closed(index, steps[..|steps| - 1], key) || Meets(index, steps, key)
                    || (steps[|steps| - 1] == Flush && Seen(index, steps[..|steps| - 1], key)))
  }

  /** A line that rewinds below the highest count so far, or that counts to another total once the highest
      was met. */
  predicate Restarts(index: Index, steps: seq<Step>, key: Key, ev: Event) {
    || ev.downloaded < Highest(index, steps, key, false)
    || (Closed(index, steps, key) && ev.total > 0 && ev.total != Highest(index, steps, key, true))
  }

  /** A line of the key does, after others of it. */
  predicate RestartsAfter(index: Index, steps: seq<Step>, key: Key, last: Step) {
    KeyOf(index, last) == Some(key) && Seen(index, steps, key) && Restarts(index, steps, key, last.ev)
  }

  /** No line of the key does. */
  predicate CountsUp(index: Index, steps: seq<Step>, key: Key) {
    steps == [] ||
    var before, last := steps[..|steps| - 1], steps[|steps| - 1];
    CountsUp(index, before, key) && !RestartsAfter(index, before, key, last)
  }

  /** One bar will do for the key: it is a listed file, or its lines only count up. */
  predicate Tame(index: Index, steps: seq<Step>, key: Key) {
    key.Path? || CountsUp(index, steps, key)
  }

  function Positive(n: int): nat {
    if n > 0 then n else 0
  }

  lemma {:induction false} UnseenIsNothing(index: Index, steps: seq<Step>, key: Key)
    requires !Seen(index, steps, key)
    ensures Highest(index, steps, key, false) == 0 && Highest(index, steps, key, true) == 0
    ensures !Closed(index, steps, key) && !Reached(index, steps, key) && CountsUp(index, steps, key)
  {
    hide KeyOf;
    if steps != [] {
      UnseenIsNothing(index, steps[..|steps| - 1], key);
    }
  }

  lemma {:induction false} ReachedCloses(index: Index, steps: seq<Step>, key: Key)
    ensures Reached(index, steps, key) ==> Closed(index, steps, key)
    ensures Flush !in steps ==> (Closed(index, steps, key) <==> Reached(index, steps, key))
  {
    hide KeyOf, Meets, Seen;
    if steps != [] {
      assert steps[|steps| - 1] in steps;
      ReachedCloses(index, steps[..|steps| - 1], key);
    }
  }

  // ---- The bar of a key ----

  function BarAt(s: State, key: Key): Option<nat> {
    match key
    case Path(p) => if p in s.byPath then Some(s.byPath[p]) else None
    case Label(l) => if l in s.byLabel then Some(s.byLabel[l]) else None
  }

  /** No bar stands for a path and a label, and every bar has had a line. */
  ghost predicate Sound(s: State) {
    && s.Valid()
    && (forall p, l | p in s.byPath && l in s.byLabel :: s.byPath[p] != s.byLabel[l])
    && (forall i | 0 <= i < |s.bars| :: s.bars[i].started)
  }

  predicate BarShows(bar: Bar, index: Index, steps: seq<Step>, key: Key) {
    && bar.downloaded == Highest(index, steps, key, false)
    && Positive(bar.total) == Highest(index, steps, key, true)
    && (bar.completed <==> Closed(index, steps, key))
  }

  /** The key has a bar exactly if it had a line, and that shows its highest readings. */
  ghost predicate Shows(s: State, index: Index, steps: seq<Step>, key: Key)
    requires s.Valid()
  {
    && (BarAt(s, key).Some? <==> Seen(index, steps, key))
    && (BarAt(s, key).Some? ==> BarShows(s.bars[BarAt(s, key).value], index, steps, key))
  }

  /** A line of the key shows on its bar. */
  lemma LineShows(bar: Bar, index: Index, steps: seq<Step>, key: Key)
    requires steps != [] && KeyOf(index, steps[|steps| - 1]) == Some(key)
    requires BarShows(bar, index, steps[..|steps| - 1], key) && (!bar.started ==> bar.total == 0)
    ensures BarShows(Ticked(bar, steps[|steps| - 1].ev), index, steps, key)
    ensures Ticked(bar, steps[|steps| - 1].ev).completed && !bar.completed ==> Meets(index, steps, key)
  {
    KeyedIsProgress(index, steps[|steps| - 1]);
    hide KeyOf, Seen;
  }

  /** A line of another key, or one that does not count, shows on neither. */
  lemma OtherLineShows(bar: Bar, index: Index, steps: seq<Step>, key: Key)
    requires steps != [] && steps[|steps| - 1].Progress? && KeyOf(index, steps[|steps| - 1]) != Some(key)
    ensures BarShows(bar, index, steps[..|steps| - 1], key) ==> BarShows(bar, index, steps, key)
    ensures Seen(index, steps, key) <==> Seen(index, steps[..|steps| - 1], key)
  {
    hide KeyOf;
    MeetsCloses(index, steps[..|steps| - 1], key);
  }

  lemma MeetsCloses(index: Index, steps: seq<Step>, key: Key)
    ensures Meets(index, steps, key) ==> Closed(index, steps, key)
  {
  }

  /** A flush completes the bar. */
  lemma FlushShows(bar: Bar, index: Index, steps: seq<Step>, key: Key)
    requires steps != [] && steps[|steps| - 1] == Flush && Seen(index, steps[..|steps| - 1], key)
    requires BarShows(bar, index, steps[..|steps| - 1], key)
    ensures BarShows(bar.(completed := true), index, steps, key)
  {
  }

  // ---- Where a line goes ----

  function TextOf(key: Key): string {
    match key
    case Path(p) => p
    case Label(l) => l
  }

  /** A counted line goes to the bar its key then stands for, which is there or added. */
  lemma RoutedByKey(s: State, index: Index, last: Step)
    requires Sound(s) && KeyOf(index, last).Some?
    ensures var (r, i) := Routed(s, index, last.ev);
            var key := KeyOf(index, last).value;
            && BarAt(r, key) == Some(i)
            && (i < |s.bars| ==> r == s)
            && (i >= |s.bars| ==> i == |s.bars| && r.bars == s.bars + [NewBar(TextOf(key))])
  {
    hide Lookup, IsNextBar;
  }

  /** All other keys keep their bars. */
  lemma RoutedElsewhere(s: State, index: Index, last: Step, other: Key)
    requires Sound(s) && KeyOf(index, last).Some? && KeyOf(index, last) != Some(other)
    ensures var (r, i) := Routed(s, index, last.ev);
            BarAt(r, other) == BarAt(s, other) && BarAt(s, other) != Some(i)
  {
    hide Lookup, IsNextBar;
  }

  /** Whether it is a new one. */
  lemma RoutedAnew(s: State, index: Index, last: Step)
    requires Sound(s) && KeyOf(index, last).Some?
    ensures var key, (_, i) := KeyOf(index, last).value, Routed(s, index, last.ev);
            i >= |s.bars| <==> BarAt(s, key) == None ||
                               (key.Label? && IsNextBar(s.bars[BarAt(s, key).value], last.ev))
  {
    hide Lookup, IsNextBar;
  }

  lemma StepKeepsSound(s: State, index: Index, step: Step)
    requires Sound(s)
    ensures Sound(AfterStep(s, index, step))
  {
    if KeyOf(index, step).Some? {
      RoutedKeepsSound(s, index, step.ev);
      hide Routed, Told, ByteDelta, TotalDelta, Full;
    }
    hide Lookup;
  }

  lemma RoutedKeepsSound(s: State, index: Index, ev: Event)
    requires Sound(s)
    ensures var (r, i) := Routed(s, index, ev);
            && (forall p, l | p in r.byPath && l in r.byLabel :: r.byPath[p] != r.byLabel[l])
            && (forall j | 0 <= j < |r.bars| && j != i :: r.bars[j].started)
  {
    hide Lookup, IsNextBar;
  }

  lemma {:induction false} AfterIsSound(index: Index, steps: seq<Step>)
    ensures Sound(After(index, steps))
  {
    hide AfterStep, Sound;
    if steps == [] {
      StartIsSound();
    } else {
      AfterIsSound(index, steps[..|steps| - 1]);
      StepKeepsSound(After(index, steps[..|steps| - 1]), index, steps[|steps| - 1]);
    }
  }

  lemma StartIsSound()
    ensures Sound(START)
  {
  }

  /** A bar that shows the lines so far is followed by another exactly when the next line restarts. */
  lemma NextBarRestarts(bar: Bar, index: Index, steps: seq<Step>, key: Key, ev: Event)
    requires BarShows(bar, index, steps, key)
    ensures IsNextBar(bar, ev) <==> Restarts(index, steps, key, ev)
  {
    hide Highest, Closed;
  }

  /** Before its line is counted, the bar a line of a tame key goes to shows the lines before. */
  lemma RoutedShows(s: State, index: Index, steps: seq<Step>)
    requires steps != [] && KeyOf(index, steps[|steps| - 1]).Some? && Sound(s)
    requires var key := KeyOf(index, steps[|steps| - 1]).value;
             Tame(index, steps, key) && Shows(s, index, steps[..|steps| - 1], key)
    ensures var (r, i) := Routed(s, index, steps[|steps| - 1].ev);
            BarShows(r.bars[i], index, steps[..|steps| - 1], KeyOf(index, steps[|steps| - 1]).value) &&
            (!r.bars[i].started ==> r.bars[i].total == 0)
  {
    var before, last := steps[..|steps| - 1], steps[|steps| - 1];
    var key := KeyOf(index, last).value;
    RoutedByKey(s, index, last);
    RoutedAnew(s, index, last);
    if BarAt(s, key).Some? {
      NextBarRestarts(s.bars[BarAt(s, key).value], index, before, key, last.ev);
    } else {
      UnseenIsNothing(index, before, key);
    }
    hide KeyOf, Routed, Highest, Closed, Seen, Restarts, IsNextBar;
  }

  /** What a line does to the bar of a key, once it is routed. */
  lemma TickedAt(s: State, i: nat, ev: Event, key: Key)
    requires s.Valid() && i < |s.bars|
    ensures var t := TickBar(s, i, ev);
            && BarAt(t, key) == BarAt(s, key)
            && (BarAt(s, key) == Some(i) ==> t.bars[i] == Ticked(s.bars[i], ev))
            && (BarAt(s, key).Some? && BarAt(s, key) != Some(i) ==>
                  t.bars[BarAt(s, key).value] == s.bars[BarAt(s, key).value])
  {
    hide Ticked, Told, ByteDelta, TotalDelta;
  }

  lemma LineKeepsShows(s: State, index: Index, steps: seq<Step>, key: Key)
    requires steps != [] && KeyOf(index, steps[|steps| - 1]).Some? && Sound(s)
    requires Tame(index, steps, key) && Shows(s, index, steps[..|steps| - 1], key)
    ensures Shows(AfterStep(s, index, steps[|steps| - 1]), index, steps, key)
  {
    var before, last := steps[..|steps| - 1], steps[|steps| - 1];
    KeyedIsProgress(index, last);
    var (r, i) := Routed(s, index, last.ev);
    assert AfterStep(s, index, last) == TickBar(r, i, last.ev);
    TickedAt(r, i, last.ev, key);
    RoutedByKey(s, index, last);
    if KeyOf(index, last) == Some(key) {
      RoutedShows(s, index, steps);
      LineShows(r.bars[i], index, steps, key);
      LineIsSeen(index, steps, key);
    } else {
      RoutedElsewhere(s, index, last, key);
      OtherLineShows(if BarAt(s, key).Some? then s.bars[BarAt(s, key).value] else NewBar(""), index, steps, key);
    }
    hide KeyOf, Routed, BarShows, Ticked, Tame, TickBar, AfterStep, BarAt, Seen;
  }

  lemma LineIsSeen(index: Index, steps: seq<Step>, key: Key)
    requires steps != [] && KeyOf(index, steps[|steps| - 1]) == Some(key)
    ensures Seen(index, steps, key)
  {
  }

  /** In any run, a tame key's bar shows its highest readings, whatever the other lines are. */
  lemma {:induction false} TameKeyShows(index: Index, steps: seq<Step>, key: Key)
    requires Tame(index, steps, key)
    ensures Shows(After(index, steps), index, steps, key)
  {
    if steps != [] {
      var before := steps[..|steps| - 1];
      TameKeyShows(index, before, key);
      AfterIsSound(index, before);
      StepKeepsShows(After(index, before), index, steps, key);
      hide Shows, AfterStep;
    }
  }

  /** The last step of the lines shown. */
  lemma StepKeepsShows(s: State, index: Index, steps: seq<Step>, key: Key)
    requires steps != [] && Sound(s) && Tame(index, steps, key) && Shows(s, index, steps[..|steps| - 1], key)
    ensures Shows(AfterStep(s, index, steps[|steps| - 1]), index, steps, key)
  {
    hide Shows, AfterStep, Tame, Sound, KeyOf;
    var last := steps[|steps| - 1];
    if last == Flush {
      FlushKeepsShows(s, index, steps, key);
    } else if KeyOf(index, last).Some? {
      LineKeepsShows(s, index, steps, key);
    } else {
      assert s.Valid() by { SoundIsValid(s); }
      UncountedKeepsShows(s, index, steps, key);
    }
  }

  lemma SoundIsValid(s: State)
    requires Sound(s)
    ensures s.Valid()
  {
  }

  lemma FlushKeepsShows(s: State, index: Index, steps: seq<Step>, key: Key)
    requires steps != [] && steps[|steps| - 1] == Flush && Sound(s) && Shows(s, index, steps[..|steps| - 1], key)
    ensures Shows(AfterStep(s, index, Flush), index, steps, key)
  {
    if BarAt(s, key).Some? {
      FlushShows(s.bars[BarAt(s, key).value], index, steps, key);
      assert GivenUp(s, BarAt(s, key).value).completed;
    }
    hide BarShows, Highest, Closed;
  }

  lemma UncountedKeepsShows(s: State, index: Index, steps: seq<Step>, key: Key)
    requires steps != [] && steps[|steps| - 1].Progress? && KeyOf(index, steps[|steps| - 1]) == None
    requires s.Valid() && Shows(s, index, steps[..|steps| - 1], key)
    ensures Shows(AfterStep(s, index, steps[|steps| - 1]), index, steps, key)
  {
    OtherLineShows(if BarAt(s, key).Some? then s.bars[BarAt(s, key).value] else NewBar(""), index, steps, key);
    hide BarShows, Highest, Closed, Seen;
  }

  // ---- A run cut where a label restarts ----

  /** One step more: of the last piece, or of a new one when it is a line of the key that restarts. */
  function Extended(index: Index, pieces: seq<seq<Step>>, key: Key, last: Step): (r: seq<seq<Step>>)
    requires pieces != []
    ensures r != []
  {
    var piece := pieces[|pieces| - 1];
    if RestartsAfter(index, piece, key, last) then pieces + [[last]]
    else pieces[..|pieces| - 1] + [piece + [last]]
  }

  /** The run cut before each line of the key that restarts, as seen from the cut before. */
  function Pieces(index: Index, steps: seq<Step>, key: Key): (r: seq<seq<Step>>)
    ensures r != []
  {
    if steps == [] then [[]] else Extended(index, Pieces(index, steps[..|steps| - 1], key), key, steps[|steps| - 1])
  }

  function LastPiece(index: Index, steps: seq<Step>, key: Key): seq<Step> {
    var pieces := Pieces(index, steps, key);
    pieces[|pieces| - 1]
  }

  function Joined(pieces: seq<seq<Step>>): seq<Step> {
    if pieces == [] then [] else Joined(pieces[..|pieces| - 1]) + pieces[|pieces| - 1]
  }

  /** Piece i opens with a line of the key that restarts after piece i - 1. */
  predicate OpensAnew(index: Index, pieces: seq<seq<Step>>, key: Key, i: nat)
    requires 0 < i < |pieces|
  {
    pieces[i] != [] && RestartsAfter(index, pieces[i - 1], key, pieces[i][0])
  }

  /** The pieces make up the run. */
  lemma {:induction false} PiecesMakeUpTheRun(index: Index, steps: seq<Step>, key: Key)
    ensures Joined(Pieces(index, steps, key)) == steps
  {
    hide RestartsAfter;
    var pieces := Pieces(index, steps, key);
    if steps == [] {
      assert pieces[..0] == [];
    } else {
      var before, last := Pieces(index, steps[..|steps| - 1], key), steps[|steps| - 1];
      var front, piece := before[..|before| - 1], before[|before| - 1];
      PiecesMakeUpTheRun(index, steps[..|steps| - 1], key);
      assert Joined(before) + [last] == Joined(front) + (piece + [last]) == steps;
      assert pieces == before + [[last]] || pieces == front + [piece + [last]];
      assert (before + [[last]])[..|before|] == before;
      assert (front + [piece + [last]])[..|front|] == front;
    }
  }

  /** The key's lines count up in each piece, and each but the first opens with a line that restarts after the
      piece before. */
  ghost predicate CutAtRestarts(index: Index, pieces: seq<seq<Step>>, key: Key) {
    && (forall i | 0 <= i < |pieces| :: CountsUp(index, pieces[i], key))
    && (forall i | 0 < i < |pieces| :: OpensAnew(index, pieces, key, i))
  }

  lemma ExtendedIsCut(index: Index, pieces: seq<seq<Step>>, key: Key, last: Step)
    requires pieces != [] && CutAtRestarts(index, pieces, key)
    ensures CutAtRestarts(index, Extended(index, pieces, key, last), key)
  {
    hide RestartsAfter, CountsUp;
    var piece, more := pieces[|pieces| - 1], Extended(index, pieces, key, last);
    StartsNothing(index, key);
    OneMoreCountsUp(index, piece, key, last);
    OneMoreCountsUp(index, [], key, last);
    assert [] + [last] == [last];
    forall i | 0 < i < |more|
      ensures OpensAnew(index, more, key, i)
    {
      if i < |pieces| {
        assert OpensAnew(index, pieces, key, i);
        assert more[i - 1] == pieces[i - 1] && more[i][0] == pieces[i][0];
      }
    }
  }

  lemma {:induction false} PiecesCutAtRestarts(index: Index, steps: seq<Step>, key: Key)
    ensures CutAtRestarts(index, Pieces(index, steps, key), key)
  {
    if steps == [] {
      StartsNothing(index, key);
    } else {
      PiecesCutAtRestarts(index, steps[..|steps| - 1], key);
      ExtendedIsCut(index, Pieces(index, steps[..|steps| - 1], key), key, steps[|steps| - 1]);
      hide CutAtRestarts, Extended;
    }
  }

  lemma OneMoreCountsUp(index: Index, piece: seq<Step>, key: Key, last: Step)
    ensures CountsUp(index, piece + [last], key) <==>
            CountsUp(index, piece, key) && !RestartsAfter(index, piece, key, last)
  {
    assert (piece + [last])[..|piece|] == piece;
  }

  lemma StartsNothing(index: Index, key: Key)
    ensures CountsUp(index, [], key) && forall last :: !RestartsAfter(index, [], key, last)
  {
  }

  /** A run in which the key's lines count up is one piece, and no other is. */
  lemma {:induction false} CountingUpIsOnePiece(index: Index, steps: seq<Step>, key: Key)
    ensures |Pieces(index, steps, key)| == 1 <==> CountsUp(index, steps, key)
    ensures CountsUp(index, steps, key) ==> Pieces(index, steps, key) == [steps]
    ensures !Seen(index, steps, key) ==> CountsUp(index, steps, key)
  {
    hide RestartsAfter, Seen;
    if steps != [] {
      CountingUpIsOnePiece(index, steps[..|steps| - 1], key);
      assert steps[..|steps| - 1] + [steps[|steps| - 1]] == steps;
    }
    if !Seen(index, steps, key) {
      UnseenIsNothing(index, steps, key);
    }
  }

  /** A line that restarts gets a bar of its own, which shows that line. */
  lemma RestartShows(s: State, index: Index, piece: seq<Step>, key: Key, last: Step)
    requires Sound(s) && Shows(s, index, piece, key) && key.Label? && RestartsAfter(index, piece, key, last)
    ensures Shows(AfterStep(s, index, last), index, [last], key)
    ensures var (r, i) := Routed(s, index, last.ev);
            i >= |s.bars| && r.bars[i] == NewBar(TextOf(key))
  {
    KeyedIsProgress(index, last);
    var (r, i) := Routed(s, index, last.ev);
    RoutedByKey(s, index, last);
    RoutedAnew(s, index, last);
    NextBarRestarts(s.bars[BarAt(s, key).value], index, piece, key, last.ev);
    NewShowsNothing(index, TextOf(key), key);
    assert AfterStep(s, index, last) == TickBar(r, i, last.ev);
    TickedAt(r, i, last.ev, key);
    assert [last][..0] == [];
    LineShows(NewBar(TextOf(key)), index, [last], key);
    LineIsSeen(index, [last], key);
    hide KeyOf, Routed, Ticked, TickBar, AfterStep, BarShows, Seen, Restarts, IsNextBar, BarAt;
  }

  lemma NewShowsNothing(index: Index, path: string, key: Key)
    ensures BarShows(NewBar(path), index, [], key)
  {
  }

  /** A label's bar shows the highest readings since its last restart. */
  lemma {:induction false} LabelShowsLastPiece(index: Index, steps: seq<Step>, text: string)
    ensures Shows(After(index, steps), index, LastPiece(index, steps, Label(text)), Label(text))
    ensures CountsUp(index, LastPiece(index, steps, Label(text)), Label(text))
  {
    PiecesCutAtRestarts(index, steps, Label(text));
    if steps != [] {
      var front := steps[..|steps| - 1];
      LabelShowsLastPiece(index, front, text);
      AfterIsSound(index, front);
      LabelKeepsShowing(After(index, front), index, LastPiece(index, front, Label(text)), text, steps[|steps| - 1]);
      hide Shows, AfterStep, RestartsAfter, CountsUp;
    }
  }

  lemma LabelKeepsShowing(s: State, index: Index, piece: seq<Step>, text: string, last: Step)
    requires Sound(s) && CountsUp(index, piece, Label(text)) && Shows(s, index, piece, Label(text))
    ensures Shows(AfterStep(s, index, last), index,
                  if RestartsAfter(index, piece, Label(text), last) then [last] else piece + [last], Label(text))
  {
    if RestartsAfter(index, piece, Label(text), last) {
      RestartShows(s, index, piece, Label(text), last);
    } else {
      var next := piece + [last];
      assert next[..|next| - 1] == piece;
      OneMoreCountsUp(index, piece, Label(text), last);
      StepKeepsShows(s, index, next, Label(text));
    }
    hide Shows, AfterStep, RestartsAfter, CountsUp, Sound;
  }

  // ---- The bars of a label ----

  function PathIs(text: string): Bar -> int {
    (b: Bar) => if b.path == text then 1 else 0
  }

  /** A sum over a label's bars: those of its text less the one that stands for a path. */
  function LabelSum(s: State, text: string, f: Bar -> int): int
    requires text in s.byPath ==> s.byPath[text] < |s.bars|
  {
    SumBars(s.bars, f) - if text in s.byPath then f(s.bars[s.byPath[text]]) else 0
  }

  /** It counts bars of that text only. */
  ghost predicate OnlyFor(f: Bar -> int, text: string) {
    forall b: Bar :: b.path != text ==> f(b) == 0
  }

  lemma RoutedLabelSum(s: State, index: Index, last: Step, text: string, f: Bar -> int)
    requires Sound(s) && KeyOf(index, last).Some? && OnlyFor(f, text)
    ensures var (r, i) := Routed(s, index, last.ev);
            LabelSum(r, text, f) - LabelSum(s, text, f) ==
              if i >= |s.bars| && KeyOf(index, last) == Some(Label(text)) then f(NewBar(text)) else 0
  {
    hide Lookup, IsNextBar, SumBars;
    forall path ensures SumBars(s.bars + [NewBar(path)], f) == SumBars(s.bars, f) + f(NewBar(path)) {
      SumBarsAppend(s.bars, NewBar(path), f);
    }
  }

  lemma TickLabelSum(s: State, i: nat, ev: Event, text: string, f: Bar -> int)
    requires s.Valid() && i < |s.bars| && OnlyFor(f, text)
    ensures LabelSum(TickBar(s, i, ev), text, f) - LabelSum(s, text, f) ==
              if s.bars[i].path == text && !(text in s.byPath && s.byPath[text] == i)
              then f(Ticked(s.bars[i], ev)) - f(s.bars[i]) else 0
  {
    assert Ticked(s.bars[i], ev).path == s.bars[i].path;
    hide SumBars, Ticked, Told, ByteDelta, TotalDelta;
    SumBarsUpdate(s.bars, i, Ticked(s.bars[i], ev), f);
  }

  /** What one step adds to it. */
  lemma LineLabelSum(s: State, index: Index, last: Step, text: string, f: Bar -> int)
    requires Sound(s) && KeyOf(index, last).Some? && OnlyFor(f, text)
    ensures var (r, i) := Routed(s, index, last.ev);
            LabelSum(AfterStep(s, index, last), text, f) - LabelSum(s, text, f) ==
              if KeyOf(index, last) != Some(Label(text)) then 0
              else (if i >= |s.bars| then f(NewBar(text)) else 0) + f(Ticked(r.bars[i], last.ev)) - f(r.bars[i])
  {
    var (r, i) := Routed(s, index, last.ev);
    RoutedByKey(s, index, last);
    RoutedLabelSum(s, index, last, text, f);
    TickLabelSum(r, i, last.ev, text, f);
    RoutedPath(s, index, last);
    assert AfterStep(s, index, last) == TickBar(r, i, last.ev);
    hide LabelSum, Routed, Ticked, OnlyFor, AfterStep, TickBar;
  }

  /** The bar has the text of its key, and stands for a path only if that is its key. */
  lemma RoutedPath(s: State, index: Index, last: Step)
    requires Sound(s) && KeyOf(index, last).Some?
    ensures var (r, i) := Routed(s, index, last.ev);
            match KeyOf(index, last).value
            case Path(p) => r.bars[i].path == p && p in r.byPath && r.byPath[p] == i
            case Label(l) => r.bars[i].path == l && !(l in r.byPath && r.byPath[l] == i)
  {
    hide Lookup, IsNextBar;
  }

  lemma OtherLabelSum(s: State, index: Index, step: Step, text: string, f: Bar -> int)
    requires s.Valid() && KeyOf(index, step) == None
    requires forall b: Bar, c :: f(b.(completed := c)) == f(b)
    ensures LabelSum(AfterStep(s, index, step), text, f) == LabelSum(s, text, f)
  {
    hide SumBars, Lookup;
    if step == Flush {
      var r := AfterFlush(s);
      SumBarsCompare(s.bars, r.bars, f);
      SumBarsCompare(r.bars, s.bars, f);
    }
  }

  /** How many bars there have been for the label. */
  function LabelBars(s: State, text: string): int
    requires text in s.byPath ==> s.byPath[text] < |s.bars|
  {
    LabelSum(s, text, PathIs(text))
  }

  /** What they counted together. */
  function LabelBytes(s: State, text: string): int
    requires text in s.byPath ==> s.byPath[text] < |s.bars|
  {
    LabelSum(s, text, BarBytes(Some(text)))
  }

  /** A label has a bar exactly if it had a line. */
  lemma {:induction false} LabelIsKnown(index: Index, steps: seq<Step>, text: string)
    ensures text in After(index, steps).byLabel <==> Seen(index, steps, Label(text))
  {
    hide KeyOf, AfterStep;
    if steps != [] {
      LabelIsKnown(index, steps[..|steps| - 1], text);
      AfterIsSound(index, steps[..|steps| - 1]);
      LabelKnownStep(After(index, steps[..|steps| - 1]), index, steps[|steps| - 1], text);
    }
  }

  lemma LabelKnownStep(s: State, index: Index, last: Step, text: string)
    requires Sound(s)
    ensures text in AfterStep(s, index, last).byLabel <==> text in s.byLabel || KeyOf(index, last) == Some(Label(text))
  {
    if KeyOf(index, last).Some? {
      KeyedIsProgress(index, last);
      var (r, i) := Routed(s, index, last.ev);
      assert AfterStep(s, index, last) == TickBar(r, i, last.ev);
      TickedAt(r, i, last.ev, Label(text));
      RoutedByKey(s, index, last);
      if KeyOf(index, last) != Some(Label(text)) {
        RoutedElsewhere(s, index, last, Label(text));
      }
      hide KeyOf, Routed, TickBar, AfterStep;
    }
    hide Lookup;
  }

  lemma PathIsOnlyFor(text: string)
    ensures OnlyFor(PathIs(text), text) && OnlyFor(BarBytes(Some(text)), text)
  {
  }

  /** What a step adds to the label's bars: one for a line with no bar to go to, or whose bar is over. */
  lemma LabelBarsStep(index: Index, steps: seq<Step>, text: string)
    requires steps != []
    ensures var before, last := steps[..|steps| - 1], steps[|steps| - 1];
            var s := After(index, before);
            LabelBars(After(index, steps), text) - LabelBars(s, text) ==
              if KeyOf(index, last) == Some(Label(text)) &&
                 (text !in s.byLabel || IsNextBar(s.bars[s.byLabel[text]], last.ev)) then 1 else 0
  {
    var before, last := steps[..|steps| - 1], steps[|steps| - 1];
    var s := After(index, before);
    AfterIsSound(index, before);
    assert After(index, steps) == AfterStep(s, index, last);
    if KeyOf(index, last).Some? {
      PathIsOnlyFor(text);
      LineLabelSum(s, index, last, text, PathIs(text));
      RoutedAnew(s, index, last);
      RoutedPath(s, index, last);
      var (r, i) := Routed(s, index, last.ev);
      assert Ticked(r.bars[i], last.ev).path == r.bars[i].path;
    } else {
      OtherLabelSum(s, index, last, text, PathIs(text));
    }
    hide KeyOf, Routed, AfterStep, LabelSum, IsNextBar, After, Ticked, OnlyFor;
  }

  /** A label has a bar for each piece its restarts cut the run into, once it had a line. */
  lemma {:induction false} LabelBarsArePieces(index: Index, steps: seq<Step>, text: string)
    ensures LabelBars(After(index, steps), text)
            == if Seen(index, steps, Label(text)) then |Pieces(index, steps, Label(text))| else 0
    ensures Seen(index, LastPiece(index, steps, Label(text)), Label(text)) <==> Seen(index, steps, Label(text))
  {
    hide KeyOf, AfterStep, IsNextBar;
    var key := Label(text);
    LabelIsKnown(index, steps, text);
    LabelShowsLastPiece(index, steps, text);
    if steps != [] {
      var front, last := steps[..|steps| - 1], steps[|steps| - 1];
      var s, piece := After(index, front), LastPiece(index, front, key);
      LabelBarsArePieces(index, front, text);
      LabelBarsStep(index, steps, text);
      LabelIsKnown(index, front, text);
      LabelShowsLastPiece(index, front, text);
      if !Seen(index, front, key) {
        CountingUpIsOnePiece(index, front, key);
      } else if KeyOf(index, last) == Some(key) {
        KeyedIsProgress(index, last);
        NextBarRestarts(s.bars[s.byLabel[text]], index, piece, key, last.ev);
      }
      hide LabelBars, After, Restarts, BarShows, CountsUp;
    }
  }

  /** A label has exactly one bar if and only if it had a line, and none of its lines rewound below the
      highest count so far, or counted to another total once the highest was met. */
  lemma LabelHasOneBarExactly(index: Index, steps: seq<Step>, text: string)
    ensures LabelBars(After(index, steps), text) == 1 <==>
            Seen(index, steps, Label(text)) && CountsUp(index, steps, Label(text))
  {
    LabelBarsArePieces(index, steps, text);
    CountingUpIsOnePiece(index, steps, Label(text));
    hide *;
  }

  // ---- The bytes of a label ----

  /** What one step adds to them: what the highest count since the last restart gains. */
  lemma LabelBytesStep(index: Index, steps: seq<Step>, text: string)
    requires steps != []
    ensures var key, front := Label(text), steps[..|steps| - 1];
            var piece := LastPiece(index, front, key);
            LabelBytes(After(index, steps), text) - LabelBytes(After(index, front), text) ==
              Highest(index, LastPiece(index, steps, key), key, false)
              - if RestartsAfter(index, piece, key, steps[|steps| - 1]) then 0 else Highest(index, piece, key, false)
  {
    var key, front, last := Label(text), steps[..|steps| - 1], steps[|steps| - 1];
    var s, piece, next := After(index, front), LastPiece(index, front, key), LastPiece(index, steps, key);
    AfterIsSound(index, front);
    assert After(index, steps) == AfterStep(s, index, last);
    LabelShowsLastPiece(index, steps, text);
    LabelShowsLastPiece(index, front, text);
    if KeyOf(index, last).Some? {
      LineLabelSum(s, index, last, text, BarBytes(Some(text))) by { PathIsOnlyFor(text); }
      if KeyOf(index, last) == Some(key) {
        LabelLineCounts(s, index, piece, text, last);
      } else {
        UnkeyedKeepsHighest(index, piece, key, last);
      }
    } else {
      OtherLabelSum(s, index, last, text, BarBytes(Some(text)));
      UnkeyedKeepsHighest(index, piece, key, last);
    }
    hide KeyOf, Routed, LabelSum, Seen, Closed, AfterStep, After, CountsUp, Shows, OnlyFor, BarBytes, Ticked, Restarts;
  }

  lemma UnkeyedKeepsHighest(index: Index, piece: seq<Step>, key: Key, last: Step)
    requires KeyOf(index, last) != Some(key)
    ensures Highest(index, piece + [last], key, false) == Highest(index, piece, key, false)
    ensures !RestartsAfter(index, piece, key, last)
  {
    assert (piece + [last])[..|piece|] == piece;
  }

  /** The bar a label's line goes to, before and after. */
  lemma LabelLineCounts(s: State, index: Index, piece: seq<Step>, text: string, last: Step)
    requires Sound(s) && KeyOf(index, last) == Some(Label(text))
    requires CountsUp(index, piece, Label(text)) && Shows(s, index, piece, Label(text))
    ensures var key, f, (r, i) := Label(text), BarBytes(Some(text)), Routed(s, index, last.ev);
            var anew := RestartsAfter(index, piece, key, last);
            && f(NewBar(text)) == 0
            && f(r.bars[i]) == (if anew then 0 else Highest(index, piece, key, false))
            && f(Ticked(r.bars[i], last.ev)) == Highest(index, if anew then [last] else piece + [last], key, false)
  {
    var key := Label(text);
    var (r, i) := Routed(s, index, last.ev);
    RoutedPath(s, index, last);
    BytesOfTicked(r.bars[i], last.ev, text);
    if RestartsAfter(index, piece, key, last) {
      RestartShows(s, index, piece, key, last);
      NewShowsNothing(index, text, key);
      assert [last][..0] == [];
      LineShows(NewBar(text), index, [last], key);
    } else {
      var next := piece + [last];
      assert next[..|next| - 1] == piece;
      RoutedShows(s, index, next);
      LineShows(r.bars[i], index, next, key);
    }
    hide KeyOf, Routed, Seen, Closed, Shows, BarBytes, Ticked, Restarts, RestartsAfter, Highest;
  }

  lemma BytesOfTicked(bar: Bar, ev: Event, text: string)
    requires bar.path == text
    ensures BarBytes(Some(text))(bar) == bar.downloaded && BarBytes(Some(text))(NewBar(text)) == 0
    ensures BarBytes(Some(text))(Ticked(bar, ev)) == Ticked(bar, ev).downloaded
  {
  }

  /** The highest count of each piece. */
  function Peaks(index: Index, pieces: seq<seq<Step>>, key: Key): (r: seq<nat>)
    ensures |r| == |pieces|
  {
    seq(|pieces|, i requires 0 <= i < |pieces| => Highest(index, pieces[i], key, false))
  }

  function Sum(ns: seq<nat>): nat {
    if ns == [] then 0 else Sum(ns[..|ns| - 1]) + ns[|ns| - 1]
  }

  function Larger(a: nat, b: nat): nat {
    if b > a then b else a
  }

  function Max(ns: seq<nat>): nat {
    if ns == [] then 0 else Larger(Max(ns[..|ns| - 1]), ns[|ns| - 1])
  }

  predicate AtMostOnePositive(ns: seq<nat>) {
    forall i, j | 0 <= i < j < |ns| :: ns[i] == 0 || ns[j] == 0
  }

  lemma {:induction false} SumIsZero(ns: seq<nat>)
    ensures Sum(ns) == 0 <==> forall i | 0 <= i < |ns| :: ns[i] == 0
  {
    if ns != [] {
      SumIsZero(ns[..|ns| - 1]);
    }
  }

  lemma PositiveNext(ns: seq<nat>)
    requires ns != []
    ensures var front, last := ns[..|ns| - 1], ns[|ns| - 1];
            AtMostOnePositive(ns) <==> AtMostOnePositive(front) && (last == 0 || Sum(front) == 0)
  {
    var front, last := ns[..|ns| - 1], ns[|ns| - 1];
    SumIsZero(front);
    if last != 0 && Sum(front) != 0 {
      var i :| 0 <= i < |front| && front[i] != 0;
      assert ns[i] != 0 && ns[|front|] != 0;
    }
  }

  /** A sum of counts is their maximum exactly when no two are above zero. */
  lemma {:induction false} SumIsMaxExactly(ns: seq<nat>)
    ensures Sum(ns) >= Max(ns) && (Sum(ns) == Max(ns) <==> AtMostOnePositive(ns))
  {
    if ns != [] {
      SumIsMaxExactly(ns[..|ns| - 1]);
      PositiveNext(ns);
    }
    hide AtMostOnePositive;
  }

  lemma PeaksExtend(index: Index, pieces: seq<seq<Step>>, key: Key, last: Step)
    requires pieces != []
    ensures var more, piece := Extended(index, pieces, key, last), pieces[|pieces| - 1];
            Sum(Peaks(index, more, key)) - Sum(Peaks(index, pieces, key)) ==
              Highest(index, more[|more| - 1], key, false)
              - if RestartsAfter(index, piece, key, last) then 0 else Highest(index, piece, key, false)
  {
    hide Highest, RestartsAfter;
    var more := Extended(index, pieces, key, last);
    var was, now := Peaks(index, pieces, key), Peaks(index, more, key);
    if |more| > |pieces| {
      assert now[..|was|] == was;
    } else {
      assert now[..|was| - 1] == was[..|was| - 1];
    }
  }

  /** A label's bytes are the peaks between its restarts, put together. */
  lemma {:induction false} LabelBytesAreSumOfPeaks(index: Index, steps: seq<Step>, text: string)
    ensures LabelBytes(After(index, steps), text)
            == Sum(Peaks(index, Pieces(index, steps, Label(text)), Label(text)))
  {
    hide AfterStep, Highest, RestartsAfter, LabelBytes, Extended;
    var key := Label(text);
    if steps == [] {
      NothingYet(index, text);
      assert Peaks(index, [[]], key) == [0];
      assert [0][..0] == [] && Sum([0]) == 0;
    } else {
      LabelBytesAreSumOfPeaks(index, steps[..|steps| - 1], text);
      LabelBytesStep(index, steps, text);
      PeaksExtend(index, Pieces(index, steps[..|steps| - 1], key), key, steps[|steps| - 1]);
      hide Sum, Peaks, After;
    }
  }

  lemma {:induction false} HighestOfJoin(index: Index, a: seq<Step>, b: seq<Step>, key: Key)
    ensures Highest(index, a + b, key, false) == Larger(Highest(index, a, key, false), Highest(index, b, key, false))
    decreases |b|
  {
    hide KeyOf;
    if b == [] {
      assert a + b == a;
    } else {
      assert (a + b)[..|a + b| - 1] == a + b[..|b| - 1];
      HighestOfJoin(index, a, b[..|b| - 1], key);
    }
  }

  lemma {:induction false} HighestIsMaxPeak(index: Index, pieces: seq<seq<Step>>, key: Key)
    ensures Highest(index, Joined(pieces), key, false) == Max(Peaks(index, pieces, key))
  {
    if pieces == [] {
      NothingHigh(index, key);
    } else {
      var front := pieces[..|pieces| - 1];
      HighestIsMaxPeak(index, front, key);
      HighestOfJoin(index, Joined(front), pieces[|pieces| - 1], key);
      assert Peaks(index, pieces, key)[..|pieces| - 1] == Peaks(index, front, key);
    }
    hide Highest;
  }

  lemma NothingHigh(index: Index, key: Key)
    ensures Highest(index, [], key, false) == 0
  {
  }

  /** They are its highest count exactly when no two of the peaks are above zero; and so whenever its lines
      only count up. */
  lemma LabelBytesAreHighestCount(index: Index, steps: seq<Step>, text: string)
    ensures LabelBytes(After(index, steps), text) == Highest(index, steps, Label(text), false)
            <==> AtMostOnePositive(Peaks(index, Pieces(index, steps, Label(text)), Label(text)))
    ensures CountsUp(index, steps, Label(text)) ==>
              LabelBytes(After(index, steps), text) == Highest(index, steps, Label(text), false)
  {
    var key := Label(text);
    var pieces := Pieces(index, steps, key);
    LabelBytesAreSumOfPeaks(index, steps, text);
    PiecesMakeUpTheRun(index, steps, key);
    HighestIsMaxPeak(index, pieces, key);
    SumIsMaxExactly(Peaks(index, pieces, key));
    CountingUpIsOnePiece(index, steps, key);
    hide Pieces, Peaks, Sum, Max, CountsUp, LabelBytes, Highest, Joined;
  }

  lemma NothingYet(index: Index, text: string)
    ensures LabelBytes(After(index, []), text) == 0 && Highest(index, [], Label(text), false) == 0
  {
  }

  // ---- The bytes of a run ----

  /** Every line that counts belongs to a listed file. */
  ghost predicate AllNamed(index: Index, steps: seq<Step>) {
    forall step | step in steps && KeyOf(index, step).Some? :: KeyOf(index, step).value.Path?
  }

  /** One bar will do for everything the lines count. */
  ghost predicate AllTame(index: Index, steps: seq<Step>) {
    forall step | step in steps && KeyOf(index, step).Some? :: Tame(index, steps, KeyOf(index, step).value)
  }

  function SumHighest(index: Index, steps: seq<Step>, keys: seq<Key>): nat {
    if keys == [] then 0 else Highest(index, steps, keys[0], false) + SumHighest(index, steps, keys[1..])
  }

  /** What the lines count, each once. */
  function Keys(index: Index, steps: seq<Step>): seq<Key> {
    if steps == [] then []
    else
      var before := Keys(index, steps[..|steps| - 1]);
      match KeyOf(index, steps[|steps| - 1])
      case Some(key) => if key in before then before else before + [key]
      case None => before
  }

  predicate NoRepeats(keys: seq<Key>) {
    forall i, j | 0 <= i < j < |keys| :: keys[i] != keys[j]
  }

  lemma {:induction false} KeysAreEach(index: Index, steps: seq<Step>)
    ensures NoRepeats(Keys(index, steps))
    ensures forall step | step in steps && KeyOf(index, step).Some? :: KeyOf(index, step).value in Keys(index, steps)
  {
    hide KeyOf;
    if steps != [] {
      KeysAreEach(index, steps[..|steps| - 1]);
      forall step | step in steps && KeyOf(index, step).Some?
        ensures KeyOf(index, step).value in Keys(index, steps)
      {
        assert step in steps[..|steps| - 1] || step == steps[|steps| - 1];
      }
    }
  }

  /** One more line raises the sum by what it raises its own key's highest count. */
  lemma {:induction false} SumHighestStep(index: Index, steps: seq<Step>, keys: seq<Key>)
    requires steps != [] && NoRepeats(keys)
    requires KeyOf(index, steps[|steps| - 1]).Some? ==> KeyOf(index, steps[|steps| - 1]).value in keys
    ensures var before := steps[..|steps| - 1];
            SumHighest(index, steps, keys) - SumHighest(index, before, keys) ==
              match KeyOf(index, steps[|steps| - 1])
              case Some(key) => Highest(index, steps, key, false) - Highest(index, before, key, false)
              case None => 0
    decreases |keys|
  {
    hide KeyOf;
    if keys != [] {
      var key := KeyOf(index, steps[|steps| - 1]);
      if key == Some(keys[0]) {
        assert key.value !in keys[1..];
        SumHighestElsewhere(index, steps, keys[1..]);
      } else {
        SumHighestStep(index, steps, keys[1..]);
      }
    }
  }

  lemma {:induction false} SumHighestElsewhere(index: Index, steps: seq<Step>, keys: seq<Key>)
    requires steps != [] && forall key | key in keys :: KeyOf(index, steps[|steps| - 1]) != Some(key)
    ensures SumHighest(index, steps, keys) == SumHighest(index, steps[..|steps| - 1], keys)
    decreases |keys|
  {
    hide KeyOf;
    if keys != [] {
      assert keys[0] in keys;
      SumHighestElsewhere(index, steps, keys[1..]);
    }
  }

  /** What one line of a tame key adds to the byte counter. */
  lemma LineAdds(index: Index, steps: seq<Step>)
    requires steps != []
    requires KeyOf(index, steps[|steps| - 1]).Some? ==> Tame(index, steps, KeyOf(index, steps[|steps| - 1]).value)
    ensures var before, last := steps[..|steps| - 1], steps[|steps| - 1];
            After(index, steps).bytes - After(index, before).bytes ==
              match KeyOf(index, last)
              case Some(key) => Highest(index, steps, key, false) - Highest(index, before, key, false)
              case None => 0
  {
    var before, last := steps[..|steps| - 1], steps[|steps| - 1];
    var s := After(index, before);
    assert After(index, steps) == AfterStep(s, index, last);
    if KeyOf(index, last).Some? {
      var key := KeyOf(index, last).value;
      KeyedIsProgress(index, last);
      AfterIsSound(index, before);
      TameKeyShows(index, before, key);
      RoutedShows(s, index, steps);
      var (r, i) := Routed(s, index, last.ev);
      LineShows(r.bars[i], index, steps, key);
      RoutedAccounts(s, index, last.ev, None);
      DownloadedGrows(r.bars[i], last.ev);
    }
    hide KeyOf, Routed, Told, Ticked, TotalDelta, ByteDelta, Closed, Highest, After, Tame, Lookup;
  }

  lemma DownloadedGrows(bar: Bar, ev: Event)
    ensures Ticked(bar, ev).downloaded == bar.downloaded + ByteDelta(bar, ev)
  {
  }

  lemma AllTameBefore(index: Index, steps: seq<Step>)
    requires steps != [] && AllTame(index, steps)
    ensures AllTame(index, steps[..|steps| - 1])
  {
    hide KeyOf, Restarts;
    assert forall step | step in steps[..|steps| - 1] :: step in steps;
  }

  /** When the listing names every bar, or no label restarts, the byte counter is the sum, over the files and
      labels, of the highest count any line of each has shown. */
  lemma {:induction false} BytesAreHighestCounts(index: Index, steps: seq<Step>, keys: seq<Key>)
    requires AllTame(index, steps) && NoRepeats(keys)
    requires forall step | step in steps && KeyOf(index, step).Some? :: KeyOf(index, step).value in keys
    ensures After(index, steps).bytes == SumHighest(index, steps, keys)
    decreases |steps|
  {
    hide AfterStep, KeyOf, NoRepeats, Tame;
    if steps == [] {
      NothingSeen(index, keys);
    } else {
      var before, last := steps[..|steps| - 1], steps[|steps| - 1];
      assert last in steps && forall step | step in before :: step in steps;
      AllTameBefore(index, steps);
      hide AllTame;
      BytesAreHighestCounts(index, before, keys);
      LastIsTame(index, steps);
      LineAdds(index, steps);
      SumHighestStep(index, steps, keys);
    }
  }

  lemma LastIsTame(index: Index, steps: seq<Step>)
    requires steps != [] && AllTame(index, steps)
    ensures var last := steps[|steps| - 1];
            KeyOf(index, last).Some? ==> Tame(index, steps, KeyOf(index, last).value)
  {
    assert steps[|steps| - 1] in steps;
  }

  lemma {:induction false} NothingSeen(index: Index, keys: seq<Key>)
    ensures SumHighest(index, [], keys) == 0
  {
    if keys != [] {
      NothingSeen(index, keys[1..]);
    }
  }

  /** The highest reading bounds every reading of the key, and is one of them unless it is zero. */
  lemma {:induction false} HighestIsHighest(index: Index, steps: seq<Step>, key: Key, ofTotal: bool)
    ensures forall step | step in steps && KeyOf(index, step) == Some(key) ::
              Reading(step, ofTotal) <= Highest(index, steps, key, ofTotal)
    ensures Highest(index, steps, key, ofTotal) == 0 ||
            exists step | step in steps ::
              KeyOf(index, step) == Some(key) && Reading(step, ofTotal) == Highest(index, steps, key, ofTotal)
  {
    if steps != [] {
      var before, last := steps[..|steps| - 1], steps[|steps| - 1];
      HighestIsHighest(index, before, key, ofTotal);
      assert last in steps && forall step | step in before :: step in steps;
      forall step | step in steps && KeyOf(index, step) == Some(key)
        ensures Reading(step, ofTotal) <= Highest(index, steps, key, ofTotal)
      {
        assert step in before || step == last;
      }
    }
  }

  lemma SameSteps(a: seq<Step>, b: seq<Step>)
    requires multiset(a) == multiset(b)
    ensures forall step :: step in a <==> step in b
  {
    forall step ensures step in a <==> step in b {
      assert step in a <==> step in multiset(a);
      assert step in b <==> step in multiset(b);
    }
  }

  lemma HighestOfSame(index: Index, a: seq<Step>, b: seq<Step>, key: Key, ofTotal: bool)
    requires multiset(a) == multiset(b)
    ensures Highest(index, a, key, ofTotal) == Highest(index, b, key, ofTotal)
  {
    hide KeyOf, Highest;
    HighestIsHighest(index, a, key, ofTotal);
    HighestIsHighest(index, b, key, ofTotal);
    SameSteps(a, b);
  }

  lemma {:induction false} SumHighestOfSame(index: Index, a: seq<Step>, b: seq<Step>, keys: seq<Key>)
    requires multiset(a) == multiset(b)
    ensures SumHighest(index, a, keys) == SumHighest(index, b, keys)
    decreases |keys|
  {
    hide Highest;
    if keys != [] {
      HighestOfSame(index, a, b, keys[0], false);
      SumHighestOfSame(index, a, b, keys[1..]);
    }
  }

  /** So it does not matter how the lines interleave, as long as neither order makes a label restart. */
  lemma InterleavingDoesNotMatter(index: Index, a: seq<Step>, b: seq<Step>)
    requires multiset(a) == multiset(b) && AllTame(index, a) && AllTame(index, b)
    ensures After(index, a).bytes == After(index, b).bytes == SumHighest(index, a, Keys(index, a))
  {
    hide KeyOf, Keys, After, SumHighest, AllTame;
    KeysAreEach(index, a);
    SameSteps(a, b);
    BytesAreHighestCounts(index, a, Keys(index, a));
    BytesAreHighestCounts(index, b, Keys(index, a));
    SumHighestOfSame(index, a, b, Keys(index, a));
  }

  /** When the listing names every bar, no order does. */
  lemma NamedInterleavingDoesNotMatter(index: Index, a: seq<Step>, b: seq<Step>)
    requires multiset(a) == multiset(b) && AllNamed(index, a)
    ensures After(index, a).bytes == After(index, b).bytes == SumHighest(index, a, Keys(index, a))
  {
    hide KeyOf, Keys, After, SumHighest, CountsUp;
    SameSteps(a, b);
    assert AllTame(index, a) && AllTame(index, b);
    InterleavingDoesNotMatter(index, a, b);
  }

  // ---- Labels that do restart ----

  const UNIT := 10

  function Line(downloaded: int): Step {
    Progress(Event("model.bin", downloaded, UNIT, false, None))
  }

  /** The label's bar, if there is one, is under way to its total. */
  ghost predicate UnderWay(s: State) {
    s.Valid() && ("model.bin" in s.byLabel ==>
                    var bar := s.bars[s.byLabel["model.bin"]];
                    bar.started && !bar.completed && bar.total == UNIT)
  }

  ghost function CountShown(s: State): int
    requires UnderWay(s)
  {
    if "model.bin" in s.byLabel then s.bars[s.byLabel["model.bin"]].downloaded else 0
  }

  lemma UnnamedLine(s: State, downloaded: nat)
    requires UnderWay(s) && downloaded < UNIT && 0 <= CountShown(s) < UNIT
    ensures var r := AfterStep(s, None, Line(downloaded));
            && UnderWay(r) && CountShown(r) == downloaded
            && r.bytes == s.bytes + if CountShown(s) <= downloaded then downloaded - CountShown(s) else downloaded
  {
    hide Told;
  }

  lemma AfterSnoc(index: Index, steps: seq<Step>, last: Step)
    ensures After(index, steps + [last]) == AfterStep(After(index, steps), index, last)
  {
    hide AfterStep;
    assert (steps + [last])[..|steps|] == steps;
  }

  /** Three such lines, one after the other. */
  lemma ThreeLines(a: nat, b: nat, c: nat)
    requires a < UNIT && b < UNIT && c < UNIT
    ensures After(None, [Line(a), Line(b), Line(c)]).bytes ==
              a + (if a <= b then b - a else b) + (if b <= c then c - b else c)
  {
    hide AfterStep, Line;
    AfterSnoc(None, [], Line(a));
    AfterSnoc(None, [Line(a)], Line(b));
    AfterSnoc(None, [Line(a), Line(b)], Line(c));
    assert [] + [Line(a)] == [Line(a)] && [Line(a)] + [Line(b)] == [Line(a), Line(b)];
    assert [Line(a), Line(b)] + [Line(c)] == [Line(a), Line(b), Line(c)];
    UnnamedLine(START, a);
    UnnamedLine(After(None, [Line(a)]), b);
    UnnamedLine(After(None, [Line(a), Line(b)]), c);
  }

  /** The same lines of an unnamed label count 9 bytes where one rewinds, and 5 where none does. */
  lemma UnnamedInterleavingMatters()
    ensures var a, b := [Line(5), Line(3), Line(4)], [Line(3), Line(4), Line(5)];
            multiset(a) == multiset(b) && After(None, a).bytes == 9 && After(None, b).bytes == 5
  {
    hide After, Line;
    ThreeLines(5, 3, 4);
    ThreeLines(3, 4, 5);
    FirstLast(Line(5), Line(3), Line(4));
  }

  lemma FirstLast(a: Step, b: Step, c: Step)
    ensures multiset([a, b, c]) == multiset([b, c, a])
  {
    assert [a, b, c] == [a] + [b, c] && [b, c, a] == [b, c] + [a];
  }

  // ---- The done events of named files ----

  /** Each file has the one bar its path stands for. */
  ghost predicate OneBarEach(s: State) {
    && s.Valid() && s.byLabel == map[]
    && forall i | 0 <= i < |s.bars| :: s.bars[i].path in s.byPath && s.byPath[s.bars[i].path] == i
  }

  lemma NamedStepKeepsOneBar(s: State, index: Index, step: Step)
    requires OneBarEach(s) && (KeyOf(index, step).Some? ==> KeyOf(index, step).value.Path?)
    ensures OneBarEach(AfterStep(s, index, step))
  {
    if KeyOf(index, step).Some? {
      KeyedIsProgress(index, step);
      RoutedKeepsOneBar(s, index, step);
      var (r, i) := Routed(s, index, step.ev);
      TickKeepsOneBar(r, i, step.ev);
      assert AfterStep(s, index, step) == TickBar(r, i, step.ev);
      hide KeyOf, Routed, TickBar, AfterStep, OneBarEach;
    } else {
      hide Told, Routed, TickBar, Lookup;
    }
  }

  lemma RoutedKeepsOneBar(s: State, index: Index, step: Step)
    requires OneBarEach(s) && KeyOf(index, step).Some? && KeyOf(index, step).value.Path?
    ensures OneBarEach(Routed(s, index, step.ev).0)
  {
    hide Lookup, IsNextBar;
  }

  lemma TickKeepsOneBar(s: State, i: nat, ev: Event)
    requires OneBarEach(s) && i < |s.bars|
    ensures OneBarEach(TickBar(s, i, ev))
  {
    assert Ticked(s.bars[i], ev).path == s.bars[i].path;
    hide Ticked, Told, ByteDelta, TotalDelta;
  }

  /** When the listing names every bar, each file has one bar, showing its highest readings. */
  lemma {:induction false} NamedRunShows(index: Index, steps: seq<Step>)
    requires AllNamed(index, steps)
    ensures OneBarEach(After(index, steps))
    ensures forall path :: Shows(After(index, steps), index, steps, Path(path))
  {
    if steps != [] {
      var before, last := steps[..|steps| - 1], steps[|steps| - 1];
      assert last in steps && forall step | step in before :: step in steps;
      NamedRunShows(index, before);
      NamedStepKeepsOneBar(After(index, before), index, last);
    }
    hide OneBarEach, AfterStep, Shows, KeyOf;
    forall path ensures Shows(After(index, steps), index, steps, Path(path)) {
      TameKeyShows(index, steps, Path(path));
    }
  }

  /** A file's bars that are done: its one bar, if that is. */
  lemma {:induction false} OneBarIsDone(bars: seq<Bar>, path: string, i: nat)
    requires forall j | 0 <= j < |bars| && bars[j].path == path :: j == i
    ensures SumBars(bars, BarDone(Some(path))) == if i < |bars| && bars[i].path == path && bars[i].completed then 1 else 0
    decreases |bars|
  {
    if bars != [] {
      OneBarIsDone(bars[..|bars| - 1], path, i);
    }
  }

  /** The done bars of a path. */
  lemma DoneBars(s: State, path: string)
    requires OneBarEach(s)
    ensures SumBars(s.bars, BarDone(Some(path))) ==
              match BarAt(s, Path(path))
              case Some(i) => if s.bars[i].completed then 1 else 0
              case None => 0
  {
    OneBarIsDone(s.bars, path, if path in s.byPath then s.byPath[path] else 0);
  }

  /** A line completes no bar whose total was not reached, so it tells of none. */
  lemma LineTellsNothing(index: Index, steps: seq<Step>, path: string)
    requires steps != [] && AllNamed(index, steps) && !Reached(index, steps, Path(path))
    requires steps[|steps| - 1].Progress?
    ensures SumCalls(After(index, steps).calls, CallDone(Some(path)))
            <= SumCalls(After(index, steps[..|steps| - 1]).calls, CallDone(Some(path)))
  {
    var before, last := steps[..|steps| - 1], steps[|steps| - 1];
    var s, key := After(index, before), Path(path);
    assert last in steps && forall step | step in before :: step in steps;
    NamedRunShows(index, before);
    NamedRunShows(index, steps);
    EveryByteIsAccounted(index, before, Some(path));
    ProgressAccounts(s, index, last.ev, Some(path));
    DoneBars(s, path);
    DoneBars(After(index, steps), path);
    StaysOpen(index, steps, path);
    hide KeyOf, AfterProgress, Reached, SumCalls, SumBars, OneBarEach, Shows;
  }

  lemma StaysOpen(index: Index, steps: seq<Step>, path: string)
    requires steps != [] && !Reached(index, steps, Path(path)) && steps[|steps| - 1].Progress?
    requires Shows(After(index, steps), index, steps, Path(path))
    requires Shows(After(index, steps[..|steps| - 1]), index, steps[..|steps| - 1], Path(path))
    ensures var s, r := After(index, steps[..|steps| - 1]), After(index, steps);
            BarAt(r, Path(path)).Some? && r.bars[BarAt(r, Path(path)).value].completed ==>
              BarAt(s, Path(path)).Some? && s.bars[BarAt(s, Path(path)).value].completed
  {
    var before := steps[..|steps| - 1];
    if Closed(index, steps, Path(path)) {
      assert Closed(index, before, Path(path));
      if !Seen(index, before, Path(path)) {
        UnseenIsNothing(index, before, Path(path));
      }
    }
    hide After, Highest, KeyOf;
  }

  lemma {:induction false} NeverTold(index: Index, steps: seq<Step>, path: string)
    requires AllNamed(index, steps) && !Reached(index, steps, Path(path))
    ensures SumCalls(After(index, steps).calls, CallDone(Some(path))) <= 0
  {
    if steps != [] {
      var before, last := steps[..|steps| - 1], steps[|steps| - 1];
      assert last in steps && forall step | step in before :: step in steps;
      NeverTold(index, before, path);
      if last.Progress? {
        LineTellsNothing(index, steps, path);
      }
      hide KeyOf, AfterProgress, SumCalls, Meets;
    }
  }

  /** When the listing names every bar, a file is told done at most once, and only when its highest count
      has met its highest total at some moment of the run; without a flush, exactly then. */
  lemma DoneOnceWhenReached(index: Index, steps: seq<Step>, path: string)
    requires AllNamed(index, steps)
    ensures var done := SumCalls(After(index, steps).calls, CallDone(Some(path)));
            && done <= (if Reached(index, steps, Path(path)) then 1 else 0)
            && (Flush !in steps ==> done == if Reached(index, steps, Path(path)) then 1 else 0)
  {
    hide After, KeyOf, SumCalls, SumBars, Highest, Reached, Closed;
    NamedRunShows(index, steps);
    EveryByteIsAccounted(index, steps, Some(path));
    DoneBars(After(index, steps), path);
    ReachedCloses(index, steps, Path(path));
    assert Shows(After(index, steps), index, steps, Path(path));
    if !Reached(index, steps, Path(path)) {
      NeverTold(index, steps, path);
    } else if !Seen(index, steps, Path(path)) {
      UnseenIsNothing(index, steps, Path(path));
    }
  }
}
