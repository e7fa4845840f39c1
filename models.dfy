/**
 * The shared value types: intervals, workout plans with their derived display
 * title, and the live telemetry snapshot that travels from watch to phone.
 */
module Models {
  import opened Wrappers
  import opened Format

  /** One step of a plan; `kind` is "run" or "rest" by convention, but any text is accepted. */
  datatype Interval = Interval(kind: string, duration: nat)

  datatype WorkoutPlan = WorkoutPlan(sport: string, intervals: seq<Interval>, title: Option<string>)

  /**
   * The telemetry record sent by the watch. `version` is the schema version
   * (1 by default), `ts` milliseconds since the epoch, `seqNo` (Swift `seq`) the producer's
   * counter, `state` 0 idle / 1 running / 2 paused.
   */
  datatype LiveSnapshot = LiveSnapshot(
    version: int,
    ts: int,
    seqNo: int,
    hr: Option<int>,
    dist: Option<real>,
    spd: Option<real>,
    kcal: Option<real>,
    state: int,
    title: Option<string>)

  /** The built-in demonstration plan. */
  function Sample(): (p: WorkoutPlan)
    ensures p.title.Some? && p.title.value != ""
  {
    WorkoutPlan("running",
                [Interval("run", 300), Interval("rest", 60), Interval("run", 300)],
                Some("2×(5:00 run / 1:00 rest)"))
  }

  /** The intervals of the given kind, in plan order. */
  function OfKind(xs: seq<Interval>, k: string): (r: seq<Interval>)
    ensures |r| <= |xs|
    ensures forall i :: 0 <= i < |r| ==> r[i].kind == k && r[i] in xs
  {
    if xs == [] then []
    else (if xs[0].kind == k then [xs[0]] else []) + OfKind(xs[1..], k)
  }

  /** Sum of all interval durations, whatever their kind. */
  function TotalSeconds(xs: seq<Interval>): (t: nat)
    ensures forall i :: 0 <= i < |xs| ==> xs[i].duration <= t
  {
    if xs == [] then 0 else xs[0].duration + TotalSeconds(xs[1..])
  }

  /** True when the plan carries a title that `displayTitle` would show as is. */
  predicate HasUsableTitle(p: WorkoutPlan) {
    p.title.Some? && p.title.value != ""
  }

  /** True when the derived title takes the "N×(run / rest)" form. */
  predicate IsPairShaped(xs: seq<Interval>) {
    |OfKind(xs, "run")| != 0 && |OfKind(xs, "run")| == |OfKind(xs, "rest")|
  }

  /** The "N×(m:ss run / m:ss rest) • Sport" rendering. */
  function PairTitle(count: nat, run: nat, rest: nat, sport: string): string {
    NatToString(count) + "×(" + MinutesSeconds(run) + " run / " + MinutesSeconds(rest) + " rest) • " + Capitalized(sport)
  }

  /** The "Sport • M min" rendering. */
  function MinutesTitle(sport: string, seconds: nat): string {
    Capitalized(sport) + " • " + NatToString(seconds / 60) + " min"
  }

  /** `WorkoutPlan.displayTitle`. */
  function DisplayTitle(p: WorkoutPlan): (r: string)
    ensures r != ""
  {
    if HasUsableTitle(p) then p.title.value
    else
      var runs := OfKind(p.intervals, "run");
      var rests := OfKind(p.intervals, "rest");
      if |runs| != 0 && |runs| == |rests| then
        PairTitle(|runs|, runs[0].duration, rests[0].duration, p.sport)
      else
        MinutesTitle(p.sport, TotalSeconds(p.intervals))
  }

  // ----- properties of the helpers -----

  lemma {:induction false} OfKindAppend(xs: seq<Interval>, ys: seq<Interval>, k: string)
    ensures OfKind(xs + ys, k) == OfKind(xs, k) + OfKind(ys, k)
  {
    if xs != [] {
      assert (xs + ys)[1..] == xs[1..] + ys;
      OfKindAppend(xs[1..], ys, k);
    } else {
      assert xs + ys == ys;
    }
  }

  lemma {:induction false} TotalAppend(xs: seq<Interval>, ys: seq<Interval>)
    ensures TotalSeconds(xs + ys) == TotalSeconds(xs) + TotalSeconds(ys)
  {
    if xs != [] {
      assert (xs + ys)[1..] == xs[1..] + ys;
      TotalAppend(xs[1..], ys);
    } else {
      assert xs + ys == ys;
    }
  }

  /** The filter drops nothing of kind `k`: every such interval is kept. */
  lemma {:induction false} OfKindComplete(xs: seq<Interval>, k: string)
    ensures forall i :: 0 <= i < |xs| && xs[i].kind == k ==> xs[i] in OfKind(xs, k)
  {
    if xs != [] {
      OfKindComplete(xs[1..], k);
      assert forall i :: 1 <= i < |xs| ==> xs[i] == xs[1..][i - 1];
    }
  }

  /** The first interval of kind `k` heads the filtered list. */
  lemma {:induction false} OfKindFirst(xs: seq<Interval>, k: string, i: nat)
    requires i < |xs| && xs[i].kind == k
    requires forall j :: 0 <= j < i ==> xs[j].kind != k
    ensures |OfKind(xs, k)| > 0 && OfKind(xs, k)[0] == xs[i]
  {
    if i > 0 {
      OfKindFirst(xs[1..], k, i - 1);
    }
  }

  /**
   * Changing the interval at `i` to another one of the same kind leaves the
   * count of every kind alone, and leaves the first interval of each kind
   * alone when `i` is not the first of its kind.
   */
  lemma {:induction false} OfKindUpdate(xs: seq<Interval>, i: nat, x: Interval, k: string)
    requires i < |xs| && x.kind == xs[i].kind
    ensures |OfKind(xs[i := x], k)| == |OfKind(xs, k)|
    ensures xs[i].kind != k ==> OfKind(xs[i := x], k) == OfKind(xs, k)
    ensures (exists j :: 0 <= j < i && xs[j].kind == xs[i].kind) && |OfKind(xs, k)| > 0 ==>
      OfKind(xs[i := x], k)[0] == OfKind(xs, k)[0]
  {
    if i == 0 {
      assert xs[i := x][1..] == xs[1..];
    } else {
      assert xs[i := x][1..] == xs[1..][i - 1 := x];
      OfKindUpdate(xs[1..], i - 1, x, k);
      if xs[0].kind != k && xs[i].kind == k && exists j :: 0 <= j < i && xs[j].kind == xs[i].kind {
        var j :| 0 <= j < i && xs[j].kind == xs[i].kind;
        assert 0 <= j - 1 < i - 1 && xs[1..][j - 1].kind == xs[1..][i - 1].kind;
      }
    }
  }

  // ----- properties of DisplayTitle -----

  /** A present, non-empty title is returned unchanged. */
  lemma DisplayTitleUsesTitle(p: WorkoutPlan)
    requires p.title.Some? && p.title.value != ""
    ensures DisplayTitle(p) == p.title.value
  {
  }

  /** An empty title is treated exactly like an absent one. */
  lemma DisplayTitleEmptyIsAbsent(sport: string, xs: seq<Interval>)
    ensures DisplayTitle(WorkoutPlan(sport, xs, Some(""))) == DisplayTitle(WorkoutPlan(sport, xs, None))
  {
  }

  /**
   * Without a usable title, equal non-zero run and rest counts give the pair
   * form built from the count and the FIRST run and FIRST rest durations.
   */
  lemma DisplayTitlePairs(p: WorkoutPlan, ri: nat, si: nat)
    requires !HasUsableTitle(p) && IsPairShaped(p.intervals)
    requires ri < |p.intervals| && p.intervals[ri].kind == "run"
    requires forall j :: 0 <= j < ri ==> p.intervals[j].kind != "run"
    requires si < |p.intervals| && p.intervals[si].kind == "rest"
    requires forall j :: 0 <= j < si ==> p.intervals[j].kind != "rest"
    ensures DisplayTitle(p) == PairTitle(|OfKind(p.intervals, "run")|, p.intervals[ri].duration, p.intervals[si].duration, p.sport)
  {
    OfKindFirst(p.intervals, "run", ri);
    OfKindFirst(p.intervals, "rest", si);
  }

  /**
   * The pair form never looks past the first run and the first rest: any
   * later interval may change its duration without changing the title.
   */
  lemma DisplayTitleIgnoresLaterPairs(p: WorkoutPlan, i: nat, d: nat)
    requires !HasUsableTitle(p) && IsPairShaped(p.intervals)
    requires i < |p.intervals|
    requires exists j :: 0 <= j < i && p.intervals[j].kind == p.intervals[i].kind
    ensures DisplayTitle(p.(intervals := p.intervals[i := Interval(p.intervals[i].kind, d)])) == DisplayTitle(p)
  {
    var x := Interval(p.intervals[i].kind, d);
    OfKindUpdate(p.intervals, i, x, "run");
    OfKindUpdate(p.intervals, i, x, "rest");
  }

  /** Otherwise the title is the sport and the whole plan's length in minutes. */
  lemma DisplayTitleFallback(p: WorkoutPlan)
    requires !HasUsableTitle(p) && !IsPairShaped(p.intervals)
    ensures DisplayTitle(p) == MinutesTitle(p.sport, TotalSeconds(p.intervals))
  {
  }

  /**
   * Intervals that are neither "run" nor "rest" do not affect the choice of
   * form: a pair-form title stays as it was, and in the minutes form their
   * duration counts toward the total.
   */
  lemma DisplayTitleCountsOtherKinds(p: WorkoutPlan, x: Interval)
    requires !HasUsableTitle(p)
    requires x.kind != "run" && x.kind != "rest"
    ensures IsPairShaped(p.intervals + [x]) == IsPairShaped(p.intervals)
    ensures IsPairShaped(p.intervals) ==> DisplayTitle(p.(intervals := p.intervals + [x])) == DisplayTitle(p)
    ensures !IsPairShaped(p.intervals) ==>
      DisplayTitle(p.(intervals := p.intervals + [x])) == MinutesTitle(p.sport, TotalSeconds(p.intervals) + x.duration)
  {
    AppendOtherKind(p.intervals, x);
    if IsPairShaped(p.intervals) {
      OtherKindKeepsPairTitle(p, x);
    } else {
      DisplayTitleFallback(p.(intervals := p.intervals + [x]));
    }
  }

  lemma OtherKindKeepsPairTitle(p: WorkoutPlan, x: Interval)
    requires !HasUsableTitle(p) && IsPairShaped(p.intervals)
    requires x.kind != "run" && x.kind != "rest"
    ensures DisplayTitle(p.(intervals := p.intervals + [x])) == DisplayTitle(p)
  {
    AppendOtherKind(p.intervals, x);
  }

  /** Appending an interval of another kind keeps both filters and adds to the total. */
  lemma AppendOtherKind(xs: seq<Interval>, x: Interval)
    requires x.kind != "run" && x.kind != "rest"
    ensures OfKind(xs + [x], "run") == OfKind(xs, "run")
    ensures OfKind(xs + [x], "rest") == OfKind(xs, "rest")
    ensures TotalSeconds(xs + [x]) == TotalSeconds(xs) + x.duration
  {
    OfKindAppend(xs, [x], "run");
    OfKindAppend(xs, [x], "rest");
    TotalAppend(xs, [x]);
  }

  /** An untitled plan with no intervals shows "<Sport> • 0 min". */
  lemma DisplayTitleNoIntervals(sport: string, title: Option<string>)
    requires title.None? || title.value == ""
    ensures DisplayTitle(WorkoutPlan(sport, [], title)) == Capitalized(sport) + " • 0 min"
  {
    assert NatToString(0) == "0";
  }

  /** The sample plan: three intervals, shown by its stored title. */
  lemma SampleShape()
    ensures |Sample().intervals| == 3
    ensures Sample().intervals[0] == Interval("run", 300)
    ensures Sample().intervals[1] == Interval("rest", 60)
    ensures Sample().intervals[2] == Interval("run", 300)
    ensures DisplayTitle(Sample()) == "2×(5:00 run / 1:00 rest)"
  {
  }

  /**
   * With its title removed, the sample plan (two runs, one rest) falls back
   * to the minutes form: 660 s is 11 minutes.
   */
  lemma SampleUntitled()
    ensures DisplayTitle(Sample().(title := None)) == "Running • 11 min"
  {
    SampleFallsBack();
    RunningMinutesTitle11();
  }

  lemma SampleFallsBack()
    ensures DisplayTitle(Sample().(title := None)) == MinutesTitle("running", 660)
  {
    SampleCounts();
    DisplayTitleFallback(Sample().(title := None));
  }

  lemma RunningMinutesTitle11()
    ensures MinutesTitle("running", 660) == "Running • 11 min"
  {
    assert 660 / 60 == 11;
    Eleven();
    CapitalizedRunning();
  }

  lemma Eleven()
    ensures NatToString(11) == "11"
  {
    assert NatToString(1) == [DigitChar(1)] == "1";
    assert NatToString(11) == NatToString(1) + [DigitChar(1)];
  }

  lemma SampleCounts()
    ensures |OfKind(Sample().intervals, "run")| == 2
    ensures |OfKind(Sample().intervals, "rest")| == 1
    ensures TotalSeconds(Sample().intervals) == 660
  {
  }

  lemma CapitalizedRunning()
    ensures Capitalized("running") == "Running"
  {
    var s := "running";
    var r := Capitalized(s);
    assert r[0] == ToUpper('r') == 'R';
    forall i | 1 <= i < |s|
      ensures r[i] == "Running"[i]
    {
      assert s[i - 1] != ' ' && 'a' <= s[i] <= 'z';
    }
  }
}
