/** The clock-offset estimator: QTimer and Android timestamps in nanoseconds, and the offset between
    the two clocks, which is estimated anew now and then. The clocks are inputs. */
module TimeUtil {
  import opened Integers

  const OFFSET_UPDATE_SCHEDULE_NS := 60_000_000_000
  const QTIMER_GAP_THRESHOLD_NS := 10_000
  const QTIMER_GAP_MAX_ITERATION := 20

  type Int64 = n: int | -TWO_63 <= n < TWO_63
  type UInt64 = n: int | 0 <= n < TWO_64

  /** Conversion between the 64-bit types, and 64-bit sums: modulo 2 to the 64. */
  function ToUInt64(n: int): UInt64 {
    n % TWO_64
  }

  function ToInt64(n: int): Int64 {
    (n + TWO_63) % TWO_64 - TWO_63
  }

  lemma ToInt64Exact(n: int)
    ensures -TWO_63 <= n < TWO_63 ==> ToInt64(n) == n
  {
  }

  /** The two conversions cancel around a sum with an offset. */
  lemma WrapCancels(n: int, off: int)
    ensures ToInt64(ToInt64(ToUInt64(n - off)) + off) == ToInt64(n)
    ensures ToUInt64(ToInt64(ToInt64(n) + off) - off) == ToUInt64(n)
  {
    ModShift(n - off);
    var a := ToInt64(ToUInt64(n - off));
    var k := (a - (n - off)) / TWO_64;
    assert a + off == n + k * TWO_64;
    SameMod(n, k);
    ModShift(n);
    var b := ToInt64(n);
    var k1 := (b - n) / TWO_64;
    ModShift(b + off);
    var c := ToInt64(b + off);
    var k2 := (c - (b + off)) / TWO_64;
    assert c - off == n + (k1 + k2) * TWO_64;
    SameMod(n, k1 + k2);
  }

  lemma ModShift(n: int)
    ensures (ToInt64(n) - n) % TWO_64 == 0 && (ToUInt64(n) - n) % TWO_64 == 0
    ensures (ToInt64(ToUInt64(n)) - n) % TWO_64 == 0
  {
    var q, q', q'' := n / TWO_64, (n + TWO_63) / TWO_64, (ToUInt64(n) + TWO_63) / TWO_64;
    assert ToUInt64(n) - n == -q * TWO_64;
    assert ToInt64(n) - n == -q' * TWO_64;
    assert ToInt64(ToUInt64(n)) - ToUInt64(n) == -q'' * TWO_64;
    hide ToUInt64, ToInt64;
    assert ToInt64(ToUInt64(n)) - n == (-q - q'') * TWO_64;
    Multiple(-q);
    Multiple(-q');
    Multiple(-q - q'');
  }

  lemma Multiple(k: int)
    ensures (k * TWO_64) % TWO_64 == 0
  {
  }

  lemma SameMod(n: int, k: int)
    ensures ToInt64(n + k * TWO_64) == ToInt64(n) && ToUInt64(n + k * TWO_64) == ToUInt64(n)
  {
    Remainder(n, k);
    Remainder(n + TWO_63, k);
  }

  lemma Remainder(n: int, k: int)
    ensures (n + k * TWO_64) % TWO_64 == n % TWO_64
  {
  }

  /** The three clock reads of one turn of the estimation loop. */
  datatype Reading = Reading(ns: UInt64, android: Int64, nsEnd: UInt64)

  type Readings = nat -> Reading

  predicate Usable(r: Reading) {
    r.ns < TWO_63 && r.android >= 0
  }

  /** Unsigned, so a QTimer that ran backwards would count as a long gap. */
  function Gap(r: Reading): UInt64 {
    ToUInt64(r.nsEnd - r.ns)
  }

  function Estimate(r: Reading, offset: Int64): Int64 {
    if Usable(r) then r.android - r.ns else offset
  }

  /** The offset when turn number i is the next one, and how many turns there are in all. */
  function Resample(offset: Int64, rs: Readings, i: nat): (r: (Int64, nat))
    requires i < QTIMER_GAP_MAX_ITERATION
    ensures i < r.1 <= QTIMER_GAP_MAX_ITERATION
    decreases QTIMER_GAP_MAX_ITERATION - i
  {
    var off := Estimate(rs(i), offset);
    if Gap(rs(i)) > QTIMER_GAP_THRESHOLD_NS && i + 1 < QTIMER_GAP_MAX_ITERATION then Resample(off, rs, i + 1)
    else (off, i + 1)
  }

  lemma ResampleTurn(offset: Int64, rs: Readings, i: nat)
    requires i < QTIMER_GAP_MAX_ITERATION
    ensures var off := Estimate(rs(i), offset);
            Resample(offset, rs, i).0
            == if Gap(rs(i)) > QTIMER_GAP_THRESHOLD_NS && i + 1 < QTIMER_GAP_MAX_ITERATION then Resample(off, rs,
                i + 1).0 else off
  {
    hide Gap, Estimate;
  }

  datatype Clock = Clock(offset: Int64, last: Int64)

  predicate Due(c: Clock, ts: Int64, force: bool) {
    ts > 0 && (force || ts < c.last || ts - c.last >= OFFSET_UPDATE_SCHEDULE_NS)
  }

  function Updated(c: Clock, ts: Int64, force: bool, rs: Readings): Clock {
    if Due(c, ts, force) then Clock(Resample(c.offset, rs, 0).0, ts) else c
  }

  /** The result of qtimerNsToElapsedRealtimeNano, and of elapsedRealtimeNanoToQtimerNs. */
  function ToAndroid(c: Clock, q: UInt64, rs: Readings): (Int64, Clock) {
    var c' := Updated(c, ToInt64(ToInt64(q) + c.offset), false, rs);
    (ToInt64(ToInt64(q) + c'.offset), c')
  }

  function ToQtimer(c: Clock, a: Int64, rs: Readings): (UInt64, Clock) {
    var c' := Updated(c, a, false, rs);
    (ToUInt64(a - c'.offset), c')
  }

  class QshTimeUtil {
    var mOffsetNs: Int64
    var mLastRealtimeNs: Int64

    ghost function State(): Clock
      reads this
    {
      Clock(mOffsetNs, mLastRealtimeNs)
    }

    /** The first estimate has no loop around it. */
    constructor (android: Int64, ns: UInt64)
      ensures State() == Clock(ToInt64(android - ToInt64(ns)), android)
    {
      mLastRealtimeNs := android;
      mOffsetNs := ToInt64(android - ToInt64(ns));
    }

    method UpdateQtimerToRealtimeOffset(androidTs: Int64, force: bool, readings: Readings) returns (changed: bool)
      modifies this
      ensures State() == Updated(old(State()), androidTs, force, readings)
      ensures changed == Due(old(State()), androidTs, force)
    {
      changed := false;
      if androidTs > 0
         && (force || androidTs < mLastRealtimeNs || androidTs - mLastRealtimeNs >= OFFSET_UPDATE_SCHEDULE_NS)
      {
        EstimateOffset(readings);
        mLastRealtimeNs := androidTs;
        changed := true;
      }
    }

    /** recalculateOffset, with what the clock says now. */
    method RecalculateOffset(now: Int64, forceUpdate: bool, readings: Readings) returns (changed: bool)
      modifies this
      ensures State() == Updated(old(State()), now, forceUpdate, readings)
      ensures now > 0 && forceUpdate ==> changed
    {
      changed := UpdateQtimerToRealtimeOffset(now, forceUpdate, readings);
    }

    /** The do-while loop over the two clocks. */
    method EstimateOffset(readings: Readings)
      modifies `mOffsetNs
      ensures mOffsetNs == Resample(old(mOffsetNs), readings, 0).0
    {
      hide Gap, Resample;
      var iter := 0;
      var more := true;
      while more
        invariant iter <= QTIMER_GAP_MAX_ITERATION && (more ==> iter < QTIMER_GAP_MAX_ITERATION)
        invariant Resample(old(mOffsetNs), readings, 0).0
                  == if more then Resample(mOffsetNs, readings, iter).0 else mOffsetNs
        decreases QTIMER_GAP_MAX_ITERATION - iter, more
      {
        ResampleTurn(mOffsetNs, readings, iter);
        var r := readings(iter);
        if r.ns < TWO_63 && r.android >= 0 {
          mOffsetNs := r.android - r.ns;
        }
        iter := iter + 1;
        more := Gap(r) > QTIMER_GAP_THRESHOLD_NS && iter < QTIMER_GAP_MAX_ITERATION;
      }
    }

    method QtimerNsToElapsedRealtimeNano(qtimerTs: UInt64, readings: Readings) returns (r: Int64)
      modifies this
      ensures (r, State()) == ToAndroid(old(State()), qtimerTs, readings)
    {
      r := ToInt64(ToInt64(qtimerTs) + mOffsetNs);
      var changed := UpdateQtimerToRealtimeOffset(r, false, readings);
      if changed {
        r := ToInt64(ToInt64(qtimerTs) + mOffsetNs);
      }
    }

    method ElapsedRealtimeNanoToQtimerNs(androidTs: Int64, readings: Readings) returns (r: UInt64)
      modifies this
      ensures (r, State()) == ToQtimer(old(State()), androidTs, readings)
    {
      var _ := UpdateQtimerToRealtimeOffset(androidTs, false, readings);
      r := ToUInt64(androidTs - mOffsetNs);
    }
  }

  // ---- how good the estimate is ----

  /** Two clocks over instants, and the instants of the reads: read number n happens at at(n), and
      neither the order of the reads nor the QTimer goes backwards. */
  datatype World = World(qtimer: nat -> UInt64, android: nat -> Int64, at: nat -> nat)

  ghost predicate Steady(w: World) {
    && (forall m: nat, n: nat :: m <= n ==> w.at(m) <= w.at(n))
    && (forall x: nat, y: nat :: x <= y ==> w.qtimer(x) <= w.qtimer(y))
  }

  function Observed(w: World): Readings {
    (i: nat) => Reading(w.qtimer(w.at(3 * i)), w.android(w.at(3 * i + 1)), w.qtimer(w.at(3 * i + 2)))
  }

  function TrueOffset(w: World, instant: nat): int {
    w.android(instant) - w.qtimer(instant)
  }

  /** A reading that counts: the QTimer fits a signed 64-bit number, and Android's clock is not negative. */
  predicate Readable(r: Reading) {
    r.ns <= 0x7fff_ffff_ffff_ffff && r.android >= 0
  }

  lemma ReadableIs(r: Reading)
    ensures Usable(r) <==> Readable(r)
  {
  }

  /** The gap of a turn; that of a QTimer that ran backwards is huge. */
  lemma GapExactly(r: Reading)
    ensures Gap(r) == if r.nsEnd >= r.ns then r.nsEnd - r.ns else r.nsEnd - r.ns + 0x1_0000_0000_0000_0000
  {
  }

  /** The turn the estimate comes from: the last one with a usable reading. */
  lemma {:induction false} EstimateSource(offset: Int64, rs: Readings, i: nat)
    requires i < 20
    ensures var (off, n) := Resample(offset, rs, i);
            || (off == offset && forall k :: i <= k < n ==> !Readable(rs(k)))
            || exists k :: i <= k < n && Readable(rs(k)) && off == rs(k).android - rs(k).ns
                           && forall m :: k < m < n ==> !Readable(rs(m))
    ensures var n := Resample(offset, rs, i).1;
            && (forall k :: i <= k < n - 1 ==> Gap(rs(k)) > 10_000)
            && (n < 20 ==> Gap(rs(n - 1)) <= 10_000)
    decreases QTIMER_GAP_MAX_ITERATION - i
  {
    hide Gap, Usable, Readable;
    ReadableIs(rs(i));
    if Gap(rs(i)) > QTIMER_GAP_THRESHOLD_NS && i + 1 < QTIMER_GAP_MAX_ITERATION {
      EstimateSource(Estimate(rs(i), offset), rs, i + 1);
    }
  }

  /** One turn's estimate is never below the offset at its Android read, and above it by no more than
      the gap of the turn. */
  lemma TurnError(w: World, k: nat)
    requires Steady(w)
    ensures var r := Observed(w)(k);
            Gap(r) == r.nsEnd - r.ns && 0 <= r.android - r.ns - TrueOffset(w, w.at(3 * k + 1)) <= Gap(r)
  {
    assert w.qtimer(w.at(3 * k)) <= w.qtimer(w.at(3 * k + 1)) <= w.qtimer(w.at(3 * k + 2));
  }

  /** An offset is off by no more than the gap of turn k, and not too low. */
  predicate WithinGap(w: World, k: nat, off: int) {
    0 <= off - TrueOffset(w, w.at(3 * k + 1)) <= Observed(w)(k).nsEnd - Observed(w)(k).ns
  }

  /** The error bound of an estimation of at most twenty turns. The estimate is off by no more than the
      gap of the last turn with a usable reading, or is the old offset if there is none. When that turn
      is the last of all, its gap is at most the threshold unless the loop ran out of turns. */
  lemma EstimateError(offset: Int64, w: World)
    requires Steady(w)
    ensures var rs := Observed(w);
            var (off, n) := Resample(offset, rs, 0);
            && 1 <= n <= 20
            && ((off == offset && forall k :: 0 <= k < n ==> !Readable(rs(k)))
                || exists k :: 0 <= k < n && Readable(rs(k)) && WithinGap(w, k, off)
                               && forall m :: k < m < n ==> !Readable(rs(m)))
            && (Readable(rs(n - 1)) ==> WithinGap(w, n - 1, off))
            && (n < 20 ==> rs(n - 1).nsEnd - rs(n - 1).ns <= 10_000)
  {
    hide Resample, Readable, Steady, Observed, TrueOffset, Gap;
    var rs := Observed(w);
    EstimateSource(offset, rs, 0);
    var (off, n) := Resample(offset, rs, 0);
    TurnError(w, n - 1);
    if exists k :: 0 <= k < n && Readable(rs(k)) && off == rs(k).android - rs(k).ns
                   && forall m :: k < m < n ==> !Readable(rs(m))
    {
      var k :| 0 <= k < n && Readable(rs(k)) && off == rs(k).android - rs(k).ns
               && forall m :: k < m < n ==> !Readable(rs(m));
      TurnError(w, k);
      assert Readable(rs(k)) && WithinGap(w, k, off);
    }
  }

  /** When the offset is estimated: never for a timestamp that is not positive; else whenever it is forced,
      or the timestamp is before that of the last update, or sixty seconds or more after it. Otherwise
      nothing changes. */
  lemma UpdateExactly(c: Clock, ts: Int64, force: bool, rs: Readings)
    ensures Updated(c, ts, force, rs)
            == if ts <= 0 || (!force && c.last <= ts < c.last + 60_000_000_000) then c
               else Clock(Resample(c.offset, rs, 0).0, ts)
  {
    hide Resample;
  }

  /** Both conversions use the offset after the update: Android's time is the QTimer's plus the offset. */
  lemma ConversionExactly(c: Clock, q: UInt64, a: Int64, rs: Readings)
    ensures var (r, c1) := ToAndroid(c, q, rs);
            q <= 0x7fff_ffff_ffff_ffff && -0x8000_0000_0000_0000 <= q + c1.offset <= 0x7fff_ffff_ffff_ffff ==>
              r == q + c1.offset
    ensures var (r, c1) := ToQtimer(c, a, rs);
            0 <= a - c1.offset < 0x1_0000_0000_0000_0000 ==> r == a - c1.offset
    ensures ToQtimer(c, a, rs).1 == Updated(c, a, false, rs)
    ensures q <= 0x7fff_ffff_ffff_ffff && -0x8000_0000_0000_0000 <= q + c.offset <= 0x7fff_ffff_ffff_ffff ==>
              ToAndroid(c, q, rs).1 == Updated(c, q + c.offset, false, rs)
  {
    hide Resample, Updated, ToInt64, ToUInt64;
    var (r, c1) := ToAndroid(c, q, rs);
    var (r', c2) := ToQtimer(c, a, rs);
    ToInt64Exact(q);
    ToInt64Exact(q + c.offset);
    ToInt64Exact(q + c1.offset);
    if 0 <= a - c2.offset < 0x1_0000_0000_0000_0000 {
      UInt64Exact(a - c2.offset);
    }
  }

  /** A QTimer timestamp that is read between the clock reads of the last turn of an update converts to
      Android's time at that turn, off by no more than the turn's gap. */
  lemma ConversionError(c: Clock, ts: Int64, w: World, x: nat)
    requires Steady(w) && ts > 0
    requires var n := Resample(c.offset, Observed(w), 0).1;
             Readable(Observed(w)(n - 1)) && w.at(3 * (n - 1)) <= x <= w.at(3 * (n - 1) + 2)
    ensures var n := Resample(c.offset, Observed(w), 0).1;
            var off := Updated(c, ts, true, Observed(w)).offset;
            var last := Observed(w)(n - 1);
            0 <= w.qtimer(x) + off - last.android <= last.nsEnd - last.ns
  {
    hide Resample, Readable, Steady, Gap, Updated;
    LastReadable(c.offset, Observed(w));
    UpdateExactly(c, ts, true, Observed(w));
    Between(w, Resample(c.offset, Observed(w), 0).1 - 1, x);
  }

  lemma Between(w: World, k: nat, x: nat)
    requires Steady(w) && w.at(3 * k) <= x <= w.at(3 * k + 2)
    ensures Observed(w)(k).ns <= w.qtimer(x) <= Observed(w)(k).nsEnd
  {
  }

  lemma LastReadable(offset: Int64, rs: Readings)
    ensures var (off, n) := Resample(offset, rs, 0);
            n >= 1 && (Readable(rs(n - 1)) ==> off == rs(n - 1).android - rs(n - 1).ns)
  {
    hide Resample, Readable, Gap;
    EstimateSource(offset, rs, 0);
  }

  // ---- the conversions undo each other ----

  /** Android to QTimer and back, for every timestamp and every reading of the clocks, also when the
      first call estimates the offset anew: the second call never does. */
  lemma AndroidRoundTrip(c: Clock, a: Int64, rs: Readings, rs': Readings)
    ensures var (q, c1) := ToQtimer(c, a, rs);
            ToAndroid(c1, q, rs') == (a, c1)
  {
    hide ToInt64, ToUInt64, Resample;
    var (q, c1) := ToQtimer(c, a, rs);
    WrapCancels(a, c1.offset);
    ToInt64Exact(a);
    assert !Due(c1, a, false);
  }

  /** After qtimerNsToElapsedRealtimeNano its result makes a new estimate due exactly when this call
      made one and it moved the timestamp back, or forward by the update period or more. */
  lemma DueAgain(c: Clock, q: UInt64, rs: Readings)
    ensures var (a, c1) := ToAndroid(c, q, rs);
            Due(c1, a, false) <==> Due(c, ToInt64(ToInt64(q) + c.offset), false) && a > 0
                                   && !(0 <= a - c1.last < 60_000_000_000)
  {
    hide ToInt64, Resample;
  }

  /** QTimer to Android and back is the identity exactly when the second call leaves the offset as it
      is, as it does whenever no new estimate is due. */
  lemma QtimerRoundTrip(c: Clock, q: UInt64, rs: Readings, rs': Readings)
    ensures var (a, c1) := ToAndroid(c, q, rs);
            var (q', c2) := ToQtimer(c1, a, rs');
            && (q' == q <==> c2.offset == c1.offset)
            && (!Due(c1, a, false) ==> (q', c2) == (q, c1))
  {
    hide ToInt64, ToUInt64, Resample, Due;
    var (a, c1) := ToAndroid(c, q, rs);
    var (q', c2) := ToQtimer(c1, a, rs');
    WrapCancels(q, c1.offset);
    UInt64Exact(q);
    OffsetsApart(a, c1.offset, c2.offset);
  }

  lemma UInt64Exact(n: UInt64)
    ensures ToUInt64(n) == n
  {
  }

  lemma OffsetsApart(a: int, m: Int64, n: Int64)
    ensures ToUInt64(a - m) == ToUInt64(a - n) <==> m == n
  {
    if ToUInt64(a - m) == ToUInt64(a - n) {
      var k := (m - n) / TWO_64;
      assert (m - n) % TWO_64 == 0;
      assert m - n == k * TWO_64;
    }
  }

  /** When the first call alone guarantees the round trip, whatever the clocks read during the second. */
  predicate Settled(c: Clock, q: UInt64, rs: Readings) {
    var before := ToInt64(ToInt64(q) + c.offset);
    var (a, c1) := ToAndroid(c, q, rs);
    !Due(c, before, false) || a <= 0 || 0 <= a - before < 60_000_000_000
  }

  /** QTimer to Android and back is the identity for every reading of the clocks exactly when the first
      call did not estimate, or moved the timestamp forward by less than the update period, or gave
      one that is not positive. */
  lemma QtimerRoundTripExactly(c: Clock, q: UInt64, rs: Readings)
    ensures var (a, c1) := ToAndroid(c, q, rs);
            (forall rs' :: ToQtimer(c1, a, rs').0 == q) <==> Settled(c, q, rs)
  {
    hide ToInt64, ToUInt64, Due, ToAndroid, ToQtimer;
    var (a, c1) := ToAndroid(c, q, rs);
    NotDueIsSettled(c, q, rs);
    if Due(c1, a, false) {
      var other: Readings := i => Reading(0, if c1.offset == 0 then 1 else 0, 0);
      OtherEstimate(c1, a);
      QtimerRoundTrip(c, q, rs, other);
    } else {
      forall rs'
        ensures ToQtimer(c1, a, rs').0 == q
      {
        QtimerRoundTrip(c, q, rs, rs');
      }
    }
  }

  lemma NotDueIsSettled(c: Clock, q: UInt64, rs: Readings)
    ensures var (a, c1) := ToAndroid(c, q, rs); Settled(c, q, rs) <==> !Due(c1, a, false)
  {
    hide ToInt64, Resample;
    DueAgain(c, q, rs);
  }

  /** Some reading of the clocks gives another offset. */
  lemma OtherEstimate(c: Clock, a: Int64)
    requires Due(c, a, false)
    ensures var other: Readings := i => Reading(0, if c.offset == 0 then 1 else 0, 0);
            ToQtimer(c, a, other).1.offset != c.offset
  {
    var other: Readings := i => Reading(0, if c.offset == 0 then 1 else 0, 0);
    ResampleTurn(c.offset, other, 0);
  }

  /** A raise of the offset by less than the update period keeps the round trip, for every timestamp: a
      sum that wraps around is negative, and no estimate is due then. */
  lemma QtimerRoundTripSmallRaise(c: Clock, q: UInt64, rs: Readings, rs': Readings)
    requires 0 <= ToAndroid(c, q, rs).1.offset - c.offset < 60_000_000_000
    ensures var (a, c1) := ToAndroid(c, q, rs); ToQtimer(c1, a, rs') == (q, c1)
  {
    hide ToInt64, ToUInt64, Resample, Due;
    QtimerRoundTrip(c, q, rs, rs');
    NotDueIsSettled(c, q, rs);
    SmallRaise(ToInt64(q) + c.offset, ToAndroid(c, q, rs).1.offset - c.offset);
  }

  /** A sum goes up by a small raise, or wraps around to a negative one. */
  lemma SmallRaise(n: int, raise: int)
    requires 0 <= raise < 60_000_000_000
    ensures ToInt64(n + raise) - ToInt64(n) == raise || ToInt64(n + raise) < 0
  {
    ModShift(n);
    var k := (n - ToInt64(n)) / TWO_64;
    assert n == ToInt64(n) + k * TWO_64;
    var m := ToInt64(n) + raise;
    assert n + raise == m + k * TWO_64;
    SameMod(m, k);
    SmallWrap(m);
  }

  lemma SmallWrap(m: int)
    requires -TWO_63 <= m < TWO_63 + 60_000_000_000
    ensures ToInt64(m) == m || ToInt64(m) < 0
  {
  }

  /** It does fail otherwise: here the first call lowers the offset by a second, and the second call,
      half a second later, finds another one. */
  lemma QtimerRoundTripFails()
    ensures var c := Clock(1_000_000_000, 0);
            var q := 100_000_000_000;
            var (a, c1) := ToAndroid(c, q, i => Reading(100_000_000_000, 100_000_000_000, 100_000_000_000));
            ToQtimer(c1, a, i => Reading(100_500_000_000, 100_500_000_001, 100_500_000_000)).0 != q
  {
  }

  // ---- how often the offset is estimated ----

  function UpdateAll(c: Clock, ts: seq<(Int64, Readings)>): Clock {
    if ts == [] then c
    else Updated(UpdateAll(c, ts[..|ts| - 1]), ts[|ts| - 1].0, false, ts[|ts| - 1].1)
  }

  function UpdateCount(c: Clock, ts: seq<(Int64, Readings)>): nat {
    if ts == [] then 0
    else
      var init := ts[..|ts| - 1];
      UpdateCount(c, init) + if Due(UpdateAll(c, init), ts[|ts| - 1].0, false) then 1 else 0
  }

  predicate Ascending(from: int, ts: seq<(Int64, Readings)>) {
    && (forall i :: 0 <= i < |ts| ==> from <= ts[i].0)
    && forall i, j :: 0 <= i < j < |ts| ==> ts[i].0 <= ts[j].0
  }

  /** Calls that are not forced and whose timestamps never go down: k estimations need a span of at
      least k update periods. */
  lemma {:induction false} UpdateRate(c: Clock, ts: seq<(Int64, Readings)>)
    requires Ascending(c.last, ts)
    ensures var end := UpdateAll(c, ts).last;
            && UpdateCount(c, ts) * 60_000_000_000 <= end - c.last
            && (ts == [] ==> end == c.last) && (ts != [] ==> c.last <= end <= ts[|ts| - 1].0)
    decreases |ts|
  {
    if ts != [] {
      var init := ts[..|ts| - 1];
      UpdateRate(c, init);
      assert init != [] ==> init[|init| - 1] == ts[|ts| - 2];
    }
  }
}
