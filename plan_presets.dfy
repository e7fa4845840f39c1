/** The phone's built-in workout plans. */
module PlanPresets {
  import opened Wrappers
  import opened Format
  import opened Models

  datatype PlanPreset = EasyRun | Intervals4x1 | Tempo20min | LongRun60

  /** Every preset, in declaration order (`allCases`). */
  const AllPresets: seq<PlanPreset> := [EasyRun, Intervals4x1, Tempo20min, LongRun60]

  /** `id`, the enum's raw value. */
  function Id(p: PlanPreset): (r: string)
    ensures r != ""
  {
    match p
    case EasyRun => "easyRun"
    case Intervals4x1 => "intervals_4x1"
    case Tempo20min => "tempo_20min"
    case LongRun60 => "longRun_60"
  }

  function Title(p: PlanPreset): (t: string)
    ensures t != ""
  {
    match p
    case EasyRun => "Easy Run 20 min"
    case Intervals4x1 => "4×(5:00 run / 1:00 rest)"
    case Tempo20min => "Tempo 20 min"
    case LongRun60 => "Long Run 60 min"
  }

  /** Four repetitions of 5:00 run then 1:00 rest. */
  function FourByOne(): seq<Interval> {
    seq(8, i => if i % 2 == 0 then Interval("run", 300) else Interval("rest", 60))
  }

  /** The intervals each preset's plan carries. */
  function PresetIntervals(p: PlanPreset): seq<Interval> {
    match p
    case EasyRun => [Interval("run", 1200)]
    case Intervals4x1 => FourByOne()
    case Tempo20min => [Interval("run", 300), Interval("run", 1200), Interval("rest", 120)]
    case LongRun60 => [Interval("run", 3600)]
  }

  function PresetPlan(p: PlanPreset): WorkoutPlan {
    WorkoutPlan("running", PresetIntervals(p), Some(Title(p)))
  }

  /** `toPlan()`; the 4×1 preset appends its intervals in a loop. */
  method ToPlan(p: PlanPreset) returns (plan: WorkoutPlan)
    ensures plan == PresetPlan(p)
  {
    match p
    case EasyRun =>
      plan := WorkoutPlan("running", [Interval("run", 20 * 60)], Some(Title(p)));
    case Intervals4x1 =>
      var arr: seq<Interval> := [];
      for k := 0 to 4
        invariant |arr| == 2 * k
        invariant forall i :: 0 <= i < |arr| ==> arr[i] == FourByOne()[i]
      {
        arr := arr + [Interval("run", 5 * 60)];
        arr := arr + [Interval("rest", 60)];
      }
      plan := WorkoutPlan("running", arr, Some(Title(p)));
    case Tempo20min =>
      plan := WorkoutPlan("running",
                          [Interval("run", 5 * 60), Interval("run", 20 * 60), Interval("rest", 2 * 60)],
                          Some(Title(p)));
    case LongRun60 =>
      plan := WorkoutPlan("running", [Interval("run", 60 * 60)], Some(Title(p)));
  }

  /** `allCases` lists every preset once, and their raw-value ids are distinct, as `Identifiable` needs. */
  lemma IdsDistinct()
    ensures forall p :: p in AllPresets
    ensures forall i, j :: 0 <= i < j < |AllPresets| ==> AllPresets[i] != AllPresets[j] && Id(AllPresets[i]) != Id(AllPresets[j])
  {
    forall p ensures p in AllPresets {
      match p
      case EasyRun => assert AllPresets[0] == p;
      case Intervals4x1 => assert AllPresets[1] == p;
      case Tempo20min => assert AllPresets[2] == p;
      case LongRun60 => assert AllPresets[3] == p;
    }
  }

  /**
   * Every preset plan is a running plan titled with the preset's title, has
   * at least one interval, and every interval lasts a positive time.
   */
  lemma PresetPlanShape(p: PlanPreset)
    ensures PresetPlan(p).sport == "running"
    ensures PresetPlan(p).title == Some(Title(p))
    ensures |PresetPlan(p).intervals| >= 1
    ensures forall i :: 0 <= i < |PresetPlan(p).intervals| ==> PresetPlan(p).intervals[i].duration > 0
  {
  }

  /** The total length of each preset. */
  lemma PresetTotals(p: PlanPreset)
    ensures TotalSeconds(PresetIntervals(p)) == match p
      case EasyRun => 1200
      case Intervals4x1 => 1440
      case Tempo20min => 1620
      case LongRun60 => 3600
  {
    match p
    case Intervals4x1 =>
      var pair := [Interval("run", 300), Interval("rest", 60)];
      assert FourByOne() == pair + pair + pair + pair;
      assert pair[1..][1..] == [];
      TotalAppend(pair + pair + pair, pair);
      TotalAppend(pair + pair, pair);
      TotalAppend(pair, pair);
    case Tempo20min =>
      var xs := PresetIntervals(p);
      assert xs[1..] == [Interval("run", 1200), Interval("rest", 120)];
      assert xs[1..][1..] == [Interval("rest", 120)];
      assert TotalSeconds(xs[1..][1..]) == 120;
    case _ =>
  }

  /** Every preset title is non-empty, so a preset plan shows its own title. */
  lemma PresetDisplayTitle(p: PlanPreset)
    ensures DisplayTitle(PresetPlan(p)) == Title(p)
  {
  }

  /**
   * Without its title, the 4×1 plan's derived title is the pair form, which
   * matches the stored title with the sport appended.
   */
  lemma FourByOneUntitled()
    ensures DisplayTitle(PresetPlan(Intervals4x1).(title := None)) == "4×(5:00 run / 1:00 rest) • Running"
  {
    FourByOneCounts();
    DisplayTitlePairs(PresetPlan(Intervals4x1).(title := None), 0, 1);
    FourByOnePairTitle();
    FourByOneTitleText();
  }

  lemma FourByOneTitleText()
    ensures "4" + "×(" + "5:00" + " run / " + "1:00" + " rest) • " + "Running" == "4×(5:00 run / 1:00 rest) • Running"
  {
  }

  lemma FourByOneCounts()
    ensures |OfKind(FourByOne(), "run")| == 4 && |OfKind(FourByOne(), "rest")| == 4
  {
    var pair := [Interval("run", 300), Interval("rest", 60)];
    assert FourByOne() == pair + pair + pair + pair;
    assert pair[1..][1..] == [];
    assert |OfKind(pair, "run")| == 1 && |OfKind(pair, "rest")| == 1;
    OfKindAppend(pair + pair + pair, pair, "run");
    OfKindAppend(pair + pair, pair, "run");
    OfKindAppend(pair, pair, "run");
    OfKindAppend(pair + pair + pair, pair, "rest");
    OfKindAppend(pair + pair, pair, "rest");
    OfKindAppend(pair, pair, "rest");
  }

  lemma FourByOnePairTitle()
    ensures PairTitle(4, 300, 60, "running") == "4" + "×(" + "5:00" + " run / " + "1:00" + " rest) • " + "Running"
  {
    assert MinutesSeconds(300) == "5:00" by {
      assert Pad2(0) == "00";
      assert NatToString(5) == "5";
    }
    assert MinutesSeconds(60) == "1:00" by {
      assert Pad2(0) == "00";
      assert NatToString(1) == "1";
    }
    CapitalizedRunning();
  }
}
