/**
 * The phone-side receiver: the ordering filter on snapshot sequence numbers,
 * the merge of an accepted snapshot into the displayed fields, and the pace
 * text. `LiveStreamViewModel` is the stateful object; `Step`, `Fold`,
 * `HighWater` and `Accepted` describe the same behaviour on values.
 */
module LiveStream {
  import opened Wrappers
  import opened Format
  import opened Models

  const NoPace: string := "--:--"

  /** Whole seconds per kilometre at `v` m/s, truncated as `Int(1000.0 / v)` does. */
  function SecondsPerKm(v: real): (n: nat)
    requires v > 0.0
    ensures n as real <= 1000.0 / v < n as real + 1.0
  {
    (1000.0 / v).Floor
  }

  /** `pace(fromSpeed:)`: "m:ss" per kilometre, or "--:--" without a positive speed. */
  function Pace(spd: Option<real>): (r: string)
    ensures r == NoPace <==> spd.None? || spd.value <= 0.0
    ensures spd.Some? && spd.value > 0.0 ==> ShowsMinutesSeconds(r, SecondsPerKm(spd.value))
  {
    if spd.None? || spd.value <= 0.0 then NoPace
    else
      var r := MinutesSeconds(SecondsPerKm(spd.value));
      assert !IsDigit(NoPace[|NoPace| - 1]);
      assert r[|r| - 2..][1] == r[|r| - 1];
      r
  }

  /** 10 km/h gives 359.99… s/km, which truncates to 359: "5:59", not "6:00". */
  lemma PaceAtTenKmPerHour()
    ensures Pace(Some(2.7778)) == "5:59"
    ensures Pace(Some(0.0)) == NoPace && Pace(None) == NoPace
  {
  }

  /** What the phone shows, plus the last accepted sequence number. */
  datatype DisplayState = DisplayState(
    lastSeq: int,
    planTitle: Option<string>,
    heartRate: int,
    distanceKm: real,
    kcal: real,
    paceText: string)

  /** The state before any snapshot arrives. */
  function Initial(): DisplayState {
    DisplayState(-1, None, 0, 0.0, 0.0, NoPace)
  }

  /** Folds an accepted snapshot into the display: keep previous values for absent fields. */
  function Merge(d: DisplayState, s: LiveSnapshot): (r: DisplayState)
    ensures r.lastSeq == s.seqNo
    ensures s.title.None? && s.hr.None? && s.dist.None? && s.kcal.None? ==>
      r.(lastSeq := d.lastSeq, paceText := d.paceText) == d
  {
    DisplayState(
      s.seqNo,
      if s.title.Some? then s.title else d.planTitle,
      s.hr.GetOr(d.heartRate),
      if s.dist.Some? then s.dist.value / 1000.0 else d.distanceKm,
      s.kcal.GetOr(d.kcal),
      Pace(s.spd))
  }

  /** One inbound snapshot: accepted only when its sequence number is newer. */
  function Step(d: DisplayState, s: LiveSnapshot): (r: DisplayState)
    ensures r.lastSeq >= d.lastSeq
    ensures r == d || (d.lastSeq < s.seqNo == r.lastSeq)
  {
    if s.seqNo > d.lastSeq then Merge(d, s) else d
  }

  /** A list of inbound snapshots, in arrival order. */
  function Fold(d: DisplayState, snaps: seq<LiveSnapshot>): (r: DisplayState)
    ensures r.lastSeq >= d.lastSeq
  {
    if snaps == [] then d
    else Step(Fold(d, snaps[..|snaps| - 1]), snaps[|snaps| - 1])
  }

  /** Merges every snapshot of the list, with no filter. */
  function MergeAll(d: DisplayState, snaps: seq<LiveSnapshot>): DisplayState {
    if snaps == [] then d
    else Merge(MergeAll(d, snaps[..|snaps| - 1]), snaps[|snaps| - 1])
  }

  /** The largest of `last` and every sequence number in `snaps`. */
  function HighWater(last: int, snaps: seq<LiveSnapshot>): int {
    if snaps == [] then last
    else
      var h0 := HighWater(last, snaps[..|snaps| - 1]);
      var s := snaps[|snaps| - 1].seqNo;
      if s > h0 then s else h0
  }

  /** The high-water mark is the maximum: an upper bound that is attained. */
  lemma {:induction false} HighWaterIsMax(last: int, snaps: seq<LiveSnapshot>)
    ensures HighWater(last, snaps) >= last
    ensures forall i :: 0 <= i < |snaps| ==> snaps[i].seqNo <= HighWater(last, snaps)
    ensures HighWater(last, snaps) == last || exists i :: 0 <= i < |snaps| && snaps[i].seqNo == HighWater(last, snaps)
  {
    if snaps != [] {
      var front := snaps[..|snaps| - 1];
      HighWaterIsMax(last, front);
      assert forall i :: 0 <= i < |front| ==> front[i] == snaps[i];
    }
  }

  /**
   * The snapshots the filter lets through, in arrival order: exactly those
   * whose sequence number beats `last` and every number that arrived before.
   */
  function Accepted(last: int, snaps: seq<LiveSnapshot>): seq<LiveSnapshot> {
    if snaps == [] then []
    else
      var front := snaps[..|snaps| - 1];
      var s := snaps[|snaps| - 1];
      if s.seqNo > HighWater(last, front) then Accepted(last, front) + [s] else Accepted(last, front)
  }

  /**
   * The accepted snapshots come from the input, lie above `last` and at most
   * at the high-water mark, and their sequence numbers strictly increase.
   */
  lemma {:induction false} AcceptedIncreasing(last: int, snaps: seq<LiveSnapshot>)
    ensures forall i :: 0 <= i < |Accepted(last, snaps)| ==>
      Accepted(last, snaps)[i] in snaps && last < Accepted(last, snaps)[i].seqNo <= HighWater(last, snaps)
    ensures forall i, j :: 0 <= i < j < |Accepted(last, snaps)| ==>
      Accepted(last, snaps)[i].seqNo < Accepted(last, snaps)[j].seqNo
  {
    if snaps != [] {
      var front := snaps[..|snaps| - 1];
      AcceptedIncreasing(last, front);
      HighWaterIsMax(last, front);
      AcceptedGrows(last, snaps);
      assert forall x :: x in front ==> x in snaps;
    }
  }

  /** A snapshot whose number beats `last` and everything before it is kept. */
  lemma {:induction false} AcceptedKeepsFresh(last: int, snaps: seq<LiveSnapshot>, i: nat)
    requires i < |snaps| && snaps[i].seqNo > HighWater(last, snaps[..i])
    ensures snaps[i] in Accepted(last, snaps)
  {
    var n := |snaps| - 1;
    var front := snaps[..n];
    var a0 := Accepted(last, front);
    AcceptedGrows(last, snaps);
    if i < n {
      assert front[..i] == snaps[..i] && front[i] == snaps[i];
      AcceptedKeepsFresh(last, front, i);
    } else {
      assert snaps[..i] == front;
    }
  }

  /** One more arrival extends the accepted list by at most that arrival. */
  lemma AcceptedGrows(last: int, snaps: seq<LiveSnapshot>)
    requires snaps != []
    ensures var front := snaps[..|snaps| - 1]; var s := snaps[|snaps| - 1];
      Accepted(last, snaps) == if s.seqNo > HighWater(last, front) then Accepted(last, front) + [s] else Accepted(last, front)
  {
  }

  /** Everything kept arrived at a position where its number beat all before it. */
  lemma {:induction false} AcceptedOnlyFresh(last: int, snaps: seq<LiveSnapshot>, x: LiveSnapshot)
    requires x in Accepted(last, snaps)
    ensures exists i :: 0 <= i < |snaps| && snaps[i] == x && x.seqNo > HighWater(last, snaps[..i])
  {
    var n := |snaps| - 1;
    var front := snaps[..n];
    if x in Accepted(last, front) {
      AcceptedOnlyFresh(last, front, x);
      var i :| 0 <= i < |front| && front[i] == x && x.seqNo > HighWater(last, front[..i]);
      assert front[..i] == snaps[..i];
    } else {
      assert snaps[n] == x && x.seqNo > HighWater(last, snaps[..n]);
    }
  }

  // ----- properties of one step -----

  /** A stale or duplicate snapshot changes nothing. */
  lemma StepRejects(d: DisplayState, s: LiveSnapshot)
    requires s.seqNo <= d.lastSeq
    ensures Step(d, s) == d
  {
  }

  /** An accepted snapshot: seq recorded, present fields taken, absent ones kept. */
  lemma StepAccepts(d: DisplayState, s: LiveSnapshot)
    requires s.seqNo > d.lastSeq
    ensures Step(d, s).lastSeq == s.seqNo
    ensures s.hr.Some? ==> Step(d, s).heartRate == s.hr.value
    ensures s.hr.None? ==> Step(d, s).heartRate == d.heartRate
    ensures s.kcal.Some? ==> Step(d, s).kcal == s.kcal.value
    ensures s.kcal.None? ==> Step(d, s).kcal == d.kcal
    ensures s.title.Some? ==> Step(d, s).planTitle == s.title
    ensures s.title.None? ==> Step(d, s).planTitle == d.planTitle
    ensures s.dist.Some? ==> Step(d, s).distanceKm * 1000.0 == s.dist.value
    ensures s.dist.None? ==> Step(d, s).distanceKm == d.distanceKm
    ensures Step(d, s).paceText == Pace(s.spd)
  {
  }

  /** The pace text never keeps a previous value: it depends on the snapshot alone. */
  lemma StepPaceOverwrites(d: DisplayState, e: DisplayState, s: LiveSnapshot)
    requires s.seqNo > d.lastSeq && s.seqNo > e.lastSeq
    ensures Step(d, s).paceText == Step(e, s).paceText
    ensures s.spd.None? ==> Step(d, s).paceText == NoPace
  {
  }

  /** Delivering the same snapshot twice has the effect of delivering it once. */
  lemma StepDuplicate(d: DisplayState, s: LiveSnapshot)
    ensures Step(Step(d, s), s) == Step(d, s)
  {
  }

  /** From the initial state, any snapshot with a non-negative seq is accepted. */
  lemma FirstSnapshotAccepted(s: LiveSnapshot)
    requires s.seqNo >= 0
    ensures Step(Initial(), s) == Merge(Initial(), s)
  {
  }

  // ----- properties of a whole stream -----

  /** After any stream, `lastSeq` is the high-water mark of what arrived. */
  lemma {:induction false} FoldLastSeq(d: DisplayState, snaps: seq<LiveSnapshot>)
    ensures Fold(d, snaps).lastSeq == HighWater(d.lastSeq, snaps)
  {
    if snaps != [] {
      FoldLastSeq(d, snaps[..|snaps| - 1]);
    }
  }

  /**
   * Filtering and merging is the same as merging only the accepted
   * subsequence: rejected snapshots leave no trace in the display.
   */
  lemma {:induction false} FoldMergesAccepted(d: DisplayState, snaps: seq<LiveSnapshot>)
    ensures Fold(d, snaps) == MergeAll(d, Accepted(d.lastSeq, snaps))
  {
    if snaps != [] {
      var front := snaps[..|snaps| - 1];
      var s := snaps[|snaps| - 1];
      FoldMergesAccepted(d, front);
      FoldLastSeq(d, front);
      var a0 := Accepted(d.lastSeq, front);
      if s.seqNo > HighWater(d.lastSeq, front) {
        assert (a0 + [s])[..|a0 + [s]| - 1] == a0;
      }
    }
  }

  /**
   * Sequence numbers 0, 1, 2 are produced and 1 is lost in transit: the
   * receiver accepts 0 and 2 and ends with `lastSeq` 2.
   */
  lemma LostMiddleSnapshot(s0: LiveSnapshot, s2: LiveSnapshot)
    requires s0.seqNo == 0 && s2.seqNo == 2
    ensures Accepted(Initial().lastSeq, [s0, s2]) == [s0, s2]
    ensures Fold(Initial(), [s0, s2]).lastSeq == 2
  {
    assert [s0, s2][..1] == [s0];
    AcceptedSingle(-1, s0);
    FoldLastSeq(Initial(), [s0, s2]);
  }

  /** A lone snapshot above `last` is accepted and sets the high-water mark. */
  lemma AcceptedSingle(last: int, s: LiveSnapshot)
    requires s.seqNo > last
    ensures Accepted(last, [s]) == [s] && HighWater(last, [s]) == s.seqNo
  {
    assert [s][..0] == [];
  }

  /**
   * After 0 and 2, a late copy of 1 and a repeated 2 are both dropped and
   * leave the display as it was.
   */
  lemma LateAndDuplicateDropped(s0: LiveSnapshot, s1: LiveSnapshot, s2: LiveSnapshot)
    requires s0.seqNo == 0 && s1.seqNo == 1 && s2.seqNo == 2
    ensures Accepted(Initial().lastSeq, [s0, s2, s1, s2]) == [s0, s2]
    ensures Fold(Initial(), [s0, s2, s1, s2]) == Fold(Initial(), [s0, s2])
  {
    var xs := [s0, s2, s1, s2];
    LostMiddleSnapshot(s0, s2);
    assert xs[..3] == [s0, s2, s1] && xs[..3][..2] == [s0, s2];
    AcceptedGrows(-1, xs[..3]);
    AcceptedGrows(-1, xs);
    assert HighWater(-1, [s0, s2, s1]) == 2;
    FoldMergesAccepted(Initial(), [s0, s2]);
    FoldMergesAccepted(Initial(), xs);
  }

  /**
   * `lastSeq` is never reset: once a workout's snapshot numbered `first.seqNo`
   * was accepted, a later workout whose counter starts again at 1 is dropped
   * until its numbers pass that value.
   */
  lemma RestartedCounterDropped(first: LiveSnapshot, next: LiveSnapshot)
    requires 1 <= next.seqNo <= first.seqNo
    ensures Fold(Initial(), [first, next]) == Fold(Initial(), [first])
  {
    assert [first, next][..1] == [first];
    AcceptedSingle(-1, first);
    FoldLastSeq(Initial(), [first]);
  }

  /** The phone's live-stream view model. */
  class LiveStreamViewModel {
    var planTitle: Option<string>
    var heartRate: int
    var distanceKm: real
    var paceText: string
    var kcal: real
    var isConnected: bool
    var lastSeq: int

    /** The displayed fields and the filter's counter, as a value. */
    function State(): DisplayState
      reads this
    {
      DisplayState(lastSeq, planTitle, heartRate, distanceKm, kcal, paceText)
    }

    /** `watchReachable` is the connectivity object's reachability at creation time. */
    constructor (watchReachable: bool)
      ensures State() == Initial()
      ensures isConnected == watchReachable
    {
      planTitle := None;
      heartRate := 0;
      distanceKm := 0.0;
      paceText := NoPace;
      kcal := 0.0;
      lastSeq := -1;
      isConnected := watchReachable;
    }

    /** The `onSnapshot` handler. */
    method OnSnapshot(snap: LiveSnapshot)
      modifies this
      ensures State() == Step(old(State()), snap)
      ensures snap.seqNo > old(lastSeq) ==> lastSeq == snap.seqNo
      ensures snap.seqNo <= old(lastSeq) ==> State() == old(State())
      ensures isConnected == old(isConnected)
    {
      if snap.seqNo <= lastSeq {
        return;
      }
      lastSeq := snap.seqNo;
      planTitle := if snap.title.Some? then snap.title else planTitle;
      heartRate := snap.hr.GetOr(heartRate);
      if snap.dist.Some? {
        distanceKm := snap.dist.value / 1000.0;
      }
      kcal := snap.kcal.GetOr(kcal);
      paceText := Pace(snap.spd);
    }

    /** An inbound message: `None` stands for a payload that did not decode. */
    method OnMessageData(decoded: Option<LiveSnapshot>)
      modifies this
      ensures decoded.None? ==> State() == old(State())
      ensures decoded.Some? ==> State() == Step(old(State()), decoded.value)
      ensures isConnected == old(isConnected)
    {
      if decoded.Some? {
        OnSnapshot(decoded.value);
      }
    }
  }
}
