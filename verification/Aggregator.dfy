/** Byte accounting over progress bars that interleave freely (internal/adapter/hfwrap/aggregator.go). */
module Aggregator {
  import opened Numbers
  import opened Labels

  /** A parsed progress line. outer says that its text is the banner counting files, and files what number
      the banner gives. */
  datatype Event = Event(text: string, downloaded: int, total: int, outer: bool, files: Option<int>)

  /** What the sink is told. */
  datatype Call = FilesTotal(n: int) | FileStart(path: string, total: int) | FileBytes(path: string, delta: int)
    | FileDone(path: string)

  datatype Bar = Bar(path: string, downloaded: int, total: int, started: bool, completed: bool)

  /** Every bar there has been, which of them the paths and the labels stand for now, the two counters, and
      what the sink was told. */
  datatype State = State(bars: seq<Bar>, byPath: map<string, nat>, byLabel: map<string, nat>,
                         bytes: int, total: int, calls: seq<Call>) {
    ghost predicate Valid() {
      && (forall p | p in byPath :: byPath[p] < |bars| && bars[byPath[p]].path == p)
      && (forall l | l in byLabel :: byLabel[l] < |bars| && bars[byLabel[l]].path == l)
    }
  }

  const START: State := State([], map[], map[], 0, 0, [])

  function NewBar(path: string): Bar {
    Bar(path, 0, 0, false, false)
  }

  /** A line that rewinds, or that counts towards another total once the bar is complete. */
  predicate IsNextBar(bar: Bar, ev: Event) {
    ev.downloaded < bar.downloaded || (bar.completed && ev.total > 0 && ev.total != bar.total)
  }

  function WithPathBar(s: State, path: string): (r: State)
    requires s.Valid()
    ensures r.Valid()
  {
    s.(bars := s.bars + [NewBar(path)], byPath := s.byPath[path := |s.bars|])
  }

  /** A label's new bar takes the place of its last one. */
  function WithLabelBar(s: State, text: string): (r: State)
    requires s.Valid()
    ensures r.Valid()
  {
    s.(bars := s.bars + [NewBar(text)], byLabel := s.byLabel[text := |s.bars|])
  }

  /** The bar a line belongs to, made when there is none. */
  function Routed(s: State, index: Index, ev: Event): (r: (State, nat))
    requires s.Valid()
    ensures r.0.Valid() && r.1 < |r.0.bars|
  {
    match Lookup(index, ev.text, ev.total)
    case Some(path) =>
      if path in s.byPath then (s, s.byPath[path])
      else (WithPathBar(s, path), |s.bars|)
    case None =>
      if ev.text in s.byLabel && !IsNextBar(s.bars[s.byLabel[ev.text]], ev) then (s, s.byLabel[ev.text])
      else (WithLabelBar(s, ev.text), |s.bars|)
  }

  /** The total a bar had not counted yet. */
  function TotalDelta(bar: Bar, ev: Event): int {
    if ev.total <= 0 then 0
    else if !bar.started then ev.total
    else if ev.total > bar.total then ev.total - bar.total
    else 0
  }

  function ByteDelta(bar: Bar, ev: Event): nat {
    if ev.downloaded > bar.downloaded then ev.downloaded - bar.downloaded else 0
  }

  function Started(bar: Bar, ev: Event): Bar {
    bar.(started := true,
         total := if !bar.started || (ev.total > bar.total && ev.total > 0) then ev.total else bar.total)
  }

  predicate Full(bar: Bar) {
    bar.total > 0 && bar.downloaded >= bar.total
  }

  /** A bar with the line's total and bytes, and then complete if those meet. */
  function Filled(bar: Bar, ev: Event): Bar {
    Started(bar, ev).(downloaded := bar.downloaded + ByteDelta(bar, ev))
  }

  function Ticked(bar: Bar, ev: Event): Bar {
    Filled(bar, ev).(completed := bar.completed || Full(Filled(bar, ev)))
  }

  function StartTold(bar: Bar, ev: Event): seq<Call> {
    if !bar.started then [FileStart(bar.path, ev.total)]
    else if TotalDelta(bar, ev) > 0 then [FileStart(bar.path, TotalDelta(bar, ev))]
    else []
  }

  function BytesTold(bar: Bar, ev: Event): seq<Call> {
    if ByteDelta(bar, ev) > 0 then [FileBytes(bar.path, ByteDelta(bar, ev))] else []
  }

  function DoneTold(bar: Bar): seq<Call> {
    if !bar.completed && Full(bar) then [FileDone(bar.path)] else []
  }

  function Told(bar: Bar, ev: Event): seq<Call> {
    StartTold(bar, ev) + BytesTold(bar, ev) + DoneTold(Filled(bar, ev))
  }

  predicate Counted(ev: Event) {
    ev.text != "" && !ev.outer
  }

  function FilesTold(ev: Event): seq<Call> {
    if ev.text == "" || !ev.outer then []
    else if ev.files.Some? then [FilesTotal(ev.files.value)]
    else if ev.total > 0 then [FilesTotal(ev.total)]
    else []
  }

  function TickBar(s: State, i: nat, ev: Event): State
    requires s.Valid() && i < |s.bars|
  {
    s.(bars := s.bars[i := Ticked(s.bars[i], ev)],
       bytes := s.bytes + ByteDelta(s.bars[i], ev),
       total := s.total + TotalDelta(s.bars[i], ev),
       calls := s.calls + Told(s.bars[i], ev))
  }

  function AfterProgress(s: State, index: Index, ev: Event): (r: State)
    requires s.Valid()
    ensures r.Valid()
  {
    if !Counted(ev) then s.(calls := s.calls + FilesTold(ev))
    else
      var (routed, i) := Routed(s, index, ev);
      TickBar(routed, i, ev)
  }

  /** A bar when the process is gone: given up if it is under way and a path or a label still stands for it. */
  ghost function GivenUp(s: State, i: nat): Bar
    requires i < |s.bars|
  {
    var bar := s.bars[i];
    bar.(completed := bar.completed || (bar.started && i in s.byPath.Values + s.byLabel.Values))
  }

  ghost function AfterFlush(s: State): (r: State)
    requires s.Valid()
    ensures r.Valid()
    ensures |r.bars| == |s.bars| && forall i | 0 <= i < |s.bars| :: r.bars[i] == GivenUp(s, i)
  {
    s.(bars := seq(|s.bars|, i requires 0 <= i < |s.bars| => GivenUp(s, i)))
  }

  // ---- What the sink hears ----

  /** Whatever a line tells of its bar names the bar's path: a start with what the total grew by, or with the total the
      first time; the bytes it grew by; and done when it becomes complete. */
  lemma ToldNamesBar(bar: Bar, ev: Event)
    ensures forall c | c in Told(bar, ev) :: !c.FilesTotal? && c.path == bar.path
    ensures FileStart(bar.path, ev.total) in Told(bar, ev) || bar.started
    ensures forall c | c in Told(bar, ev) && c.FileBytes? :: c.delta == ev.downloaded - bar.downloaded > 0
    ensures Ticked(bar, ev).path == bar.path
  {
    hide Full;
    assert bar.started || StartTold(bar, ev)[0] == FileStart(bar.path, ev.total);
  }

  /** A banner tells the number of files it gives, or its total, and no line without a label or banner moves a bar. */
  lemma BannerTells(s: State, index: Index, ev: Event)
    requires s.Valid() && (ev.text == "" || ev.outer)
    ensures var t := AfterProgress(s, index, ev);
            && t == s.(calls := t.calls)
            && t.calls == s.calls + if ev.text != "" && ev.files.Some? then [FilesTotal(ev.files.value)]
                                    else if ev.text != "" && ev.total > 0 then [FilesTotal(ev.total)]
                                    else []
  {
  }

  // ---- The class ----

  class FileState {
    var path: string
    var downloaded: int
    var total: int
    var started: bool
    var completed: bool

    function Contents(): Bar
      reads this
    {
      Bar(path, downloaded, total, started, completed)
    }

    constructor (path: string)
      ensures Contents() == NewBar(path)
    {
      this.path := path;
      downloaded, total, started, completed := 0, 0, false, false;
    }
  }

  ghost predicate Distinct(bars: seq<FileState>) {
    forall i, j | 0 <= i < j < |bars| :: bars[i] != bars[j]
  }

  /** The map holds the bars its indices say. */
  ghost predicate Refers(m: map<string, FileState>, indices: map<string, nat>, bars: seq<FileState>) {
    m.Keys == indices.Keys && forall k | k in m :: indices[k] < |bars| && m[k] == bars[indices[k]]
  }

  lemma BarsGrow(m: map<string, FileState>, indices: map<string, nat>, bars: seq<FileState>, key: string, fs: FileState)
    requires Refers(m, indices, bars) && Distinct(bars) && fs !in bars
    ensures Refers(m[key := fs], indices[key := |bars|], bars + [fs]) && Distinct(bars + [fs])
  {
  }

  lemma OtherBarsGrow(m: map<string, FileState>, indices: map<string, nat>, bars: seq<FileState>, fs: FileState)
    requires Refers(m, indices, bars)
    ensures Refers(m, indices, bars + [fs])
  {
  }

  lemma ValuesMatch(m: map<string, FileState>, indices: map<string, nat>, bars: seq<FileState>)
    requires Refers(m, indices, bars) && Distinct(bars)
    ensures forall i | 0 <= i < |bars| :: bars[i] in m.Values <==> i in indices.Values
    ensures forall k | k in m :: m[k] in bars
  {
    forall i | 0 <= i < |bars|
      ensures bars[i] in m.Values <==> i in indices.Values
    {
      if bars[i] in m.Values {
        var k :| k in m && m[k] == bars[i];
        assert indices[k] == i;
      }
      if i in indices.Values {
        var k :| k in indices && indices[k] == i;
        assert m[k] == bars[i];
      }
    }
  }

  class Aggregator {
    const tree: Index
    var byPath: map<string, FileState>
    var byLabel: map<string, FileState>
    var aggBytes: int
    var aggTotal: int
    var calls: seq<Call>
    ghost var bars: seq<FileState>
    ghost var pathBars: map<string, nat>
    ghost var labelBars: map<string, nat>

    ghost function BarValues(): (r: seq<Bar>)
      reads this, bars
      ensures |r| == |bars| && forall i | 0 <= i < |r| :: r[i] == bars[i].Contents()
    {
      seq(|bars|, i requires 0 <= i < |bars| reads this, bars => bars[i].Contents())
    }

    ghost function Contents(): State
      reads this, bars
    {
      State(BarValues(), pathBars, labelBars, aggBytes, aggTotal, calls)
    }

    ghost predicate Valid()
      reads this, bars
    {
      && Distinct(bars) && Refers(byPath, pathBars, bars) && Refers(byLabel, labelBars, bars)
      && Contents().Valid()
    }

    constructor (entries: seq<Entry>)
      ensures Valid() && Contents() == START && IndexFor(tree, entries)
      ensures bars == []
    {
      var index := NewLabelIndex(entries);
      tree := index;
      byPath, byLabel := map[], map[];
      aggBytes, aggTotal, calls := 0, 0, [];
      bars, pathBars, labelBars := [], map[], map[];
    }

    method AddPathBar(path: string) returns (fs: FileState)
      requires Valid()
      modifies this`byPath, this`pathBars, this`bars
      ensures Valid()
      ensures Contents() == WithPathBar(old(Contents()), path)
      ensures fresh(fs) && bars == old(bars) + [fs]
    {
      hide Refers, Distinct, State.Valid;
      ghost var was := Contents();
      fs := new FileState(path);
      BarsGrow(byPath, pathBars, bars, path, fs);
      OtherBarsGrow(byLabel, labelBars, bars, fs);
      byPath := byPath[path := fs];
      pathBars := pathBars[path := |bars|];
      bars := bars + [fs];
      assert Contents().bars == was.bars + [NewBar(path)];
      assert Contents() == WithPathBar(was, path);
    }

    method AddLabelBar(text: string) returns (fs: FileState)
      requires Valid()
      modifies this`byLabel, this`labelBars, this`bars
      ensures Valid()
      ensures Contents() == WithLabelBar(old(Contents()), text)
      ensures fresh(fs) && bars == old(bars) + [fs]
    {
      hide Refers, Distinct, State.Valid;
      ghost var was := Contents();
      fs := new FileState(text);
      BarsGrow(byLabel, labelBars, bars, text, fs);
      OtherBarsGrow(byPath, pathBars, bars, fs);
      byLabel := byLabel[text := fs];
      labelBars := labelBars[text := |bars|];
      bars := bars + [fs];
      assert Contents().bars == was.bars + [NewBar(text)];
      assert Contents() == WithLabelBar(was, text);
    }

    method Route(ev: Event) returns (fs: FileState)
      requires Valid()
      modifies this`byPath, this`byLabel, this`pathBars, this`labelBars, this`bars
      ensures Valid()
      ensures Contents() == Routed(old(Contents()), tree, ev).0
      ensures Routed(old(Contents()), tree, ev).1 < |bars| && fs == bars[Routed(old(Contents()), tree, ev).1]
      ensures forall b | b in bars :: b in old(bars) || fresh(b)
      ensures fs in old(bars) || fresh(fs)
    {
      hide BarValues;
      hide Lookup, WithPathBar, WithLabelBar, IsNextBar;
      var path := LookUp(tree, ev.text, ev.total);
      if path.Some? {
        if path.value in byPath {
          fs := byPath[path.value];
        } else {
          fs := AddPathBar(path.value);
        }
      } else if ev.text in byLabel && !IsNextBar(byLabel[ev.text].Contents(), ev) {
        fs := byLabel[ev.text];
      } else {
        fs := AddLabelBar(ev.text);
      }
    }

    /** The line's total: the bar's first, or a larger one. */
    method CountTotal(fs: FileState, ev: Event)
      modifies this`aggTotal, this`calls, fs`started, fs`total
      ensures fs.Contents() == Started(old(fs.Contents()), ev)
      ensures aggTotal == old(aggTotal) + TotalDelta(old(fs.Contents()), ev)
      ensures calls == old(calls) + StartTold(old(fs.Contents()), ev)
    {
      if !fs.started {
        fs.started := true;
        fs.total := ev.total;
        if ev.total > 0 {
          aggTotal := aggTotal + ev.total;
        }
        calls := calls + [FileStart(fs.path, ev.total)];
      } else if ev.total > fs.total && ev.total > 0 {
        var delta := ev.total - fs.total;
        fs.total := ev.total;
        aggTotal := aggTotal + delta;
        calls := calls + [FileStart(fs.path, delta)];
      }
    }

    method CountBytes(fs: FileState, ev: Event)
      modifies this`aggBytes, this`calls, fs`downloaded
      ensures fs.downloaded == old(fs.downloaded) + ByteDelta(old(fs.Contents()), ev)
      ensures aggBytes == old(aggBytes) + ByteDelta(old(fs.Contents()), ev)
      ensures calls == old(calls) + BytesTold(old(fs.Contents()), ev)
    {
      if ev.downloaded > fs.downloaded {
        var delta := ev.downloaded - fs.downloaded;
        fs.downloaded := ev.downloaded;
        aggBytes := aggBytes + delta;
        calls := calls + [FileBytes(fs.path, delta)];
      }
    }

    method CountDone(fs: FileState)
      modifies this`calls, fs`completed
      ensures fs.completed == (old(fs.completed) || Full(old(fs.Contents())))
      ensures calls == old(calls) + DoneTold(old(fs.Contents()))
    {
      if !fs.completed && fs.total > 0 && fs.downloaded >= fs.total {
        fs.completed := true;
        calls := calls + [FileDone(fs.path)];
      }
    }

    /** One line of the bar fs. */
    method Tick(fs: FileState, ev: Event)
      modifies this`aggBytes, this`aggTotal, this`calls, fs
      ensures fs.Contents() == Ticked(old(fs.Contents()), ev)
      ensures aggBytes == old(aggBytes) + ByteDelta(old(fs.Contents()), ev)
      ensures aggTotal == old(aggTotal) + TotalDelta(old(fs.Contents()), ev)
      ensures calls == old(calls) + Told(old(fs.Contents()), ev)
    {
      hide TotalDelta, StartTold, DoneTold, Full;
      CountTotal(fs, ev);
      CountBytes(fs, ev);
      CountDone(fs);
    }

    /** That leaves the other bars alone. */
    method TickBarOf(fs: FileState, ghost i: nat, ev: Event)
      requires Valid() && i < |bars| && fs == bars[i]
      modifies this`aggBytes, this`aggTotal, this`calls, fs
      ensures Valid() && Contents() == TickBar(old(Contents()), i, ev)
    {
      hide BarValues, Refers, ByteDelta, TotalDelta, Told, Full;
      ghost var before := Contents();
      Tick(fs, ev);
      forall j | 0 <= j < |bars|
        ensures Contents().bars[j] == before.bars[i := Ticked(before.bars[i], ev)][j]
      {
        assert before.bars[j] == old(bars[j].Contents());
        if j != i {
          assert bars[j] != fs;
        }
      }
      assert Contents().bars == before.bars[i := Ticked(before.bars[i], ev)];
    }

    method Tell(told: seq<Call>)
      requires Valid()
      modifies this`calls
      ensures Valid() && Contents() == old(Contents()).(calls := old(calls) + told)
    {
      calls := calls + told;
      assert Contents().bars == old(Contents()).bars;
    }

    method OnProgress(ev: Event)
      requires Valid()
      modifies this, bars
      ensures Valid()
      ensures Contents() == AfterProgress(old(Contents()), tree, ev)
      ensures forall b | b in bars :: b in old(bars) || fresh(b)
    {
      hide Routed, TickBar, Ticked, Told;
      if ev.text == "" {
        assert Contents().calls + [] == Contents().calls;
        return;
      }
      if ev.outer {
        if ev.files.Some? {
          Tell([FilesTotal(ev.files.value)]);
        } else if ev.total > 0 {
          Tell([FilesTotal(ev.total)]);
        } else {
          Tell([]);
        }
        return;
      }
      var fs := Route(ev);
      TickBarOf(fs, Routed(old(Contents()), tree, ev).1, ev);
    }

    /** Gives up every bar of m that is under way. */
    method GiveUp(m: map<string, FileState>)
      requires forall k | k in m :: m[k] in bars
      modifies bars`completed
      ensures forall b | b in bars :: b.completed == (old(b.completed) || (b.started && b in m.Values))
    {
      var keys := m.Keys;
      while keys != {}
        invariant keys <= m.Keys
        invariant forall b | b in bars :: old(b.completed) ==> b.completed
        invariant forall b | b in bars && b.completed :: old(b.completed) || (b.started && b in m.Values)
        invariant forall k | k in m && k !in keys && m[k].started :: m[k].completed
        decreases |keys|
      {
        var k :| k in keys;
        var fs := m[k];
        if fs.started && !fs.completed {
          fs.completed := true;
        }
        keys := keys - {k};
      }
    }

    method FlushIncomplete()
      requires Valid()
      modifies bars`completed
      ensures Valid()
      ensures Contents() == AfterFlush(old(Contents()))
    {
      hide BarValues, Refers, Distinct;
      ValuesMatch(byPath, pathBars, bars);
      ValuesMatch(byLabel, labelBars, bars);
      GiveUp(byPath);
      GiveUp(byLabel);
      forall i | 0 <= i < |bars|
        ensures Contents().bars[i] == GivenUp(old(Contents()), i)
      {
        assert bars[i] in bars;
        assert old(Contents()).bars[i] == old(bars[i].Contents());
      }
      assert Contents().bars == AfterFlush(old(Contents())).bars;
    }
  }
}
