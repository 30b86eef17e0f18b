/**
 * The Brutal congestion controller (src/brutal.rs). Floating point is modelled by reals; the
 * saturating u64 additions and the saturating float-to-integer casts are written out.
 */
module Brutal {
  import opened Seqs

  const SLOT_COUNT: nat := 5
  const MIN_SAMPLE_BYTES: nat := 50 * 1200
  const MIN_ACK_RATE: real := 0.8
  const MIN_WINDOW: nat := 10_240
  const PACING_FACTOR: real := 0.8
  const NANOS: nat := 1_000_000_000

  /** Nanoseconds since the epoch of the clock; the seconds of an `Instant` are a signed 64-bit number. */
  type Instant = t: nat | t < 0x8000_0000_0000_0000 * 1_000_000_000

  type Duration = d: real | 0.0 <= d witness 0.0

  /** One slot of the ring, and also one call of `record`: bytes acknowledged and lost in a second. */
  datatype Sample = Sample(second: nat, acked: nat, lost: nat)

  datatype Kind = Acked | Lost

  function Bytes(s: Sample, kind: Kind): nat {
    match kind
    case Acked => s.acked
    case Lost => s.lost
  }

  function Sat(x: nat): nat { if x <= U64_MAX then x else U64_MAX }

  const NO_SAMPLE: Sample := Sample(U64_MAX, 0, 0)

  const EMPTY_RING: seq<Sample> := [NO_SAMPLE, NO_SAMPLE, NO_SAMPLE, NO_SAMPLE, NO_SAMPLE]

  /** The slot update of `record`. */
  function Store(ring: seq<Sample>, s: Sample): (r: seq<Sample>)
    requires |ring| == SLOT_COUNT
    ensures |r| == SLOT_COUNT
  {
    var i := s.second % SLOT_COUNT;
    var slot := if ring[i].second != s.second then Sample(s.second, 0, 0) else ring[i];
    ring[i := Sample(s.second, Sat(slot.acked + s.acked), Sat(slot.lost + s.lost))]
  }

  /** What a slot contributes to the totals at `now`: nothing unless it passes the filter. */
  function Contribution(slot: Sample, now: nat, kind: Kind): nat {
    var oldest := if now >= SLOT_COUNT then now - SLOT_COUNT else 0;
    if oldest <= slot.second <= now then Bytes(slot, kind) else 0
  }

  /** The saturating fold over the filtered slots. */
  function Total(ring: seq<Sample>, now: nat, kind: Kind): nat {
    if ring == [] then 0
    else Sat(Total(ring[..|ring| - 1], now, kind) + Contribution(ring[|ring| - 1], now, kind))
  }

  function AckRate(acked: nat, lost: nat): real {
    var total := Sat(acked + lost);
    if total < MIN_SAMPLE_BYTES then 1.0 else
    var rate := acked as real / total as real;
    if rate >= MIN_ACK_RATE then rate else MIN_ACK_RATE
  }

  /** A float-to-u64 cast of a non-negative number. */
  function ToU64(x: real): nat
    requires x >= 0.0
  {
    if x.Floor <= U64_MAX then x.Floor else U64_MAX
  }

  predicate SaneAckRate(ackRate: real) { MIN_ACK_RATE <= ackRate <= 1.0 }

  /** The congestion window computed from scratch. */
  function Window(rate: nat, rtt: Duration, ackRate: real, mtu: nat): nat
    requires SaneAckRate(ackRate)
  {
    Max(Max(ToU64(Target(rate, rtt, ackRate)), MIN_WINDOW), 2 * mtu)
  }

  function Target(rate: nat, rtt: Duration, ackRate: real): (t: Duration)
    requires SaneAckRate(ackRate)
  {
    TargetBounds(rate as real * rtt, ackRate);
    rate as real * rtt * PACING_FACTOR / ackRate
  }

  function PacingRate(rate: nat, ackRate: real): nat
    requires SaneAckRate(ackRate)
  {
    ToU64(rate as real / ackRate * 8.0)
  }

  // ----- the ring against the full history -----

  function Replay(history: seq<Sample>): (r: seq<Sample>)
    ensures |r| == SLOT_COUNT
  {
    if history == [] then EMPTY_RING else Store(Replay(history[..|history| - 1]), history[|history| - 1])
  }

  /** Bytes of all samples whose second lies in lo..=hi: the sliding window over the whole history. */
  function Sum(history: seq<Sample>, lo: int, hi: int, kind: Kind): nat {
    if history == [] then 0 else
    var s := history[|history| - 1];
    Sum(history[..|history| - 1], lo, hi, kind) + if lo <= s.second <= hi then Bytes(s, kind) else 0
  }

  /** Time does not go backwards, and no sample carries the sentinel second. */
  ghost predicate Clocked(history: seq<Sample>) {
    && (forall i :: 0 <= i < |history| ==> history[i].second < U64_MAX)
    && (forall i, j :: 0 <= i <= j < |history| ==> history[i].second <= history[j].second)
  }

  lemma {:induction false} SumEmpty(history: seq<Sample>, lo: int, hi: int, kind: Kind)
    requires forall i :: 0 <= i < |history| ==> !(lo <= history[i].second <= hi)
    ensures Sum(history, lo, hi, kind) == 0
  {
    if history != [] {
      SumEmpty(history[..|history| - 1], lo, hi, kind);
    }
  }

  /** A slot holds the latest second of its residue class, with that second's (saturated) sums. */
  ghost predicate SlotFits(slot: Sample, history: seq<Sample>, i: nat) {
    || (slot == NO_SAMPLE && forall j :: 0 <= j < |history| ==> history[j].second % SLOT_COUNT != i)
    || (&& slot.second % SLOT_COUNT == i
        && slot.second <= LastSecond(history)
        && (forall j :: 0 <= j < |history| && history[j].second % SLOT_COUNT == i ==> history[j].second <= slot.second)
        && (forall kind :: Bytes(slot, kind) == Sat(Sum(history, slot.second, slot.second, kind))))
  }

  ghost function LastSecond(history: seq<Sample>): int {
    if history == [] then -1 else history[|history| - 1].second
  }

  lemma StoreFits(ring: seq<Sample>, history: seq<Sample>, s: Sample, i: nat)
    requires |ring| == SLOT_COUNT && i < SLOT_COUNT && Clocked(history + [s])
    requires SlotFits(ring[i], history, i)
    ensures SlotFits(Store(ring, s)[i], history + [s], i)
  {
    var longer := history + [s];
    assert longer[..|history|] == history;
    assert forall j :: 0 <= j < |history| ==> longer[j] == history[j];
    if i == s.second % SLOT_COUNT {
      var slot := Store(ring, s)[i];
      forall kind
        ensures Bytes(slot, kind) == Sat(Sum(longer, s.second, s.second, kind))
      {
        if ring[i].second != s.second {
          SumEmpty(history, s.second, s.second, kind);
        }
      }
    }
  }

  lemma {:induction false} RingFits(history: seq<Sample>)
    requires Clocked(history)
    ensures forall i :: 0 <= i < SLOT_COUNT ==> SlotFits(Replay(history)[i], history, i)
  {
    if history != [] {
      var n := |history| - 1;
      RingFits(history[..n]);
      assert history[..n] + [history[n]] == history;
      forall i | 0 <= i < SLOT_COUNT
        ensures SlotFits(Replay(history)[i], history, i)
      {
        StoreFits(Replay(history[..n]), history[..n], history[n], i);
      }
    }
  }

  /** Bytes of the samples in the five seconds up to `now` that fall into slot i. */
  function OfSlot(history: seq<Sample>, now: int, i: nat, kind: Kind): nat {
    if history == [] then 0 else
    var s := history[|history| - 1];
    OfSlot(history[..|history| - 1], now, i, kind)
    + if now - 4 <= s.second <= now && s.second % SLOT_COUNT == i then Bytes(s, kind) else 0
  }

  /** Two seconds of one residue class within five seconds are the same second. */
  lemma SameSecond(now: int, a: nat, b: nat)
    requires now - 4 <= a <= now && now - 4 <= b <= now && a % SLOT_COUNT == b % SLOT_COUNT
    ensures a == b
  {
  }

  lemma {:induction false} OfSlotIsItsSecond(history: seq<Sample>, now: int, second: nat, kind: Kind)
    requires now - 4 <= second <= now
    ensures OfSlot(history, now, second % SLOT_COUNT, kind) == Sum(history, second, second, kind)
  {
    if history != [] {
      var s := history[|history| - 1];
      OfSlotIsItsSecond(history[..|history| - 1], now, second, kind);
      if now - 4 <= s.second <= now && s.second % SLOT_COUNT == second % SLOT_COUNT {
        SameSecond(now, s.second, second);
      }
    }
  }

  lemma {:induction false} OfSlotEmpty(history: seq<Sample>, now: int, i: nat, kind: Kind)
    requires forall j :: 0 <= j < |history| && history[j].second % SLOT_COUNT == i ==> history[j].second < now - 4
    ensures OfSlot(history, now, i, kind) == 0
  {
    if history != [] {
      OfSlotEmpty(history[..|history| - 1], now, i, kind);
    }
  }

  /**
   * Right after `record` at `now`, slot i contributes exactly the bytes of the window that fall
   * into it. The filter would also let a slot five seconds old pass, but that slot is the one
   * just overwritten.
   */
  lemma SlotContributes(history: seq<Sample>, i: nat, kind: Kind)
    requires history != [] && Clocked(history) && i < SLOT_COUNT
    ensures var now := history[|history| - 1].second;
            Contribution(Replay(history)[i], now, kind) == Sat(OfSlot(history, now, i, kind))
  {
    var now := history[|history| - 1].second;
    var slot := Replay(history)[i];
    RingFits(history);
    assert SlotFits(slot, history, i);
    if slot != NO_SAMPLE && now - 4 <= slot.second {
      OfSlotIsItsSecond(history, now, slot.second, kind);
    } else {
      if slot != NO_SAMPLE {
        NotFiveSecondsOld(history, i);
      }
      OfSlotEmpty(history, now, i, kind);
    }
  }

  lemma MinusFive(now: nat)
    ensures now >= SLOT_COUNT ==> (now - SLOT_COUNT) % SLOT_COUNT == now % SLOT_COUNT
  {
  }

  lemma {:induction false} NotFiveSecondsOld(history: seq<Sample>, i: nat)
    requires history != [] && i < SLOT_COUNT
    requires Replay(history)[i].second % SLOT_COUNT == i
    ensures Replay(history)[i].second != history[|history| - 1].second - SLOT_COUNT
  {
    var now := history[|history| - 1].second;
    assert Replay(history)[now % SLOT_COUNT].second == now;
    MinusFive(now);
  }

  function SumSeq(xs: seq<nat>): nat {
    if xs == [] then 0 else SumSeq(xs[..|xs| - 1]) + xs[|xs| - 1]
  }

  /** Saturating early or late makes no difference to a sum of non-negative numbers. */
  lemma {:induction false} TotalIsSaturatedSum(ring: seq<Sample>, now: nat, kind: Kind, xs: seq<nat>)
    requires |xs| == |ring|
    requires forall i :: 0 <= i < |ring| ==> Contribution(ring[i], now, kind) == Sat(xs[i])
    ensures Total(ring, now, kind) == Sat(SumSeq(xs))
  {
    if ring != [] {
      TotalIsSaturatedSum(ring[..|ring| - 1], now, kind, xs[..|xs| - 1]);
    }
  }

  function BySlot(history: seq<Sample>, now: int, kind: Kind): (r: seq<nat>)
    ensures |r| == SLOT_COUNT && forall i :: 0 <= i < SLOT_COUNT ==> r[i] == OfSlot(history, now, i, kind)
  {
    seq(SLOT_COUNT, i requires 0 <= i < SLOT_COUNT => OfSlot(history, now, i, kind))
  }

  lemma {:induction false} SumSeqUpdate(xs: seq<nat>, i: nat, x: nat)
    requires i < |xs|
    ensures SumSeq(xs[i := x]) == SumSeq(xs) - xs[i] + x
  {
    var n := |xs| - 1;
    if i < n {
      SumSeqUpdate(xs[..n], i, x);
      assert xs[i := x][..n] == xs[..n][i := x];
    } else {
      assert xs[i := x][..n] == xs[..n];
    }
  }

  lemma {:induction false} SumSeqZeros(xs: seq<nat>)
    requires forall i :: 0 <= i < |xs| ==> xs[i] == 0
    ensures SumSeq(xs) == 0
  {
    if xs != [] {
      SumSeqZeros(xs[..|xs| - 1]);
    }
  }

  /** The slots partition the window. */
  lemma {:induction false} SlotsPartition(history: seq<Sample>, now: int, kind: Kind)
    ensures SumSeq(BySlot(history, now, kind)) == Sum(history, now - 4, now, kind)
  {
    if history == [] {
      SumSeqZeros(BySlot(history, now, kind));
    } else {
      var earlier, s := history[..|history| - 1], history[|history| - 1];
      SlotsPartition(earlier, now, kind);
      var before, after := BySlot(earlier, now, kind), BySlot(history, now, kind);
      if now - 4 <= s.second <= now {
        var i := s.second % SLOT_COUNT;
        assert after == before[i := before[i] + Bytes(s, kind)];
        SumSeqUpdate(before, i, before[i] + Bytes(s, kind));
      } else {
        assert after == before;
      }
    }
  }

  /**
   * The ring equals the history: the total the controller uses is the sum over all samples of the
   * current and the four preceding seconds, saturated at the u64 limit.
   */
  lemma RingEqualsHistory(history: seq<Sample>, kind: Kind)
    requires history != [] && Clocked(history)
    ensures var now := history[|history| - 1].second;
            Total(Replay(history), now, kind) == Sat(Sum(history, now - 4, now, kind))
  {
    var now := history[|history| - 1].second;
    forall i | 0 <= i < SLOT_COUNT
      ensures Contribution(Replay(history)[i], now, kind) == Sat(BySlot(history, now, kind)[i])
    {
      SlotContributes(history, i, kind);
    }
    TotalIsSaturatedSum(Replay(history), now, kind, BySlot(history, now, kind));
    SlotsPartition(history, now, kind);
  }

  /** The acknowledgement rate as a function of the ring the history leaves behind. */
  function RateAfter(history: seq<Sample>): real {
    if history == [] then 1.0 else
    var now := history[|history| - 1].second;
    AckRate(Total(Replay(history), now, Acked), Total(Replay(history), now, Lost))
  }

  /** The acknowledgement rate over the last five seconds of the whole history. */
  lemma RateEqualsHistory(history: seq<Sample>)
    requires history != [] && Clocked(history)
    ensures var now := history[|history| - 1].second;
            RateAfter(history) == AckRate(Sat(Sum(history, now - 4, now, Acked)), Sat(Sum(history, now - 4, now, Lost)))
  {
    RingEqualsHistory(history, Acked);
    RingEqualsHistory(history, Lost);
  }

  lemma AckRateIsSane(acked: nat, lost: nat)
    ensures SaneAckRate(AckRate(Sat(acked), Sat(lost)))
  {
    var a, total := Sat(acked), Sat(Sat(acked) + Sat(lost));
    if total >= MIN_SAMPLE_BYTES {
      QuotientAtMost(a as real, total as real, 1.0);
    }
  }

  lemma MulMonotone(a: real, b: real, c: real)
    requires a <= b && c >= 0.0
    ensures a * c <= b * c
  {
    assert b * c - a * c == (b - a) * c;
  }

  lemma QuotientAtMost(x: real, d: real, bound: real)
    requires d > 0.0 && x <= bound * d
    ensures x / d <= bound
  {
    var q := x / d;
    assert q * d == x;
    if q > bound {
      assert (q - bound) * d > 0.0;
      assert q * d - bound * d == (q - bound) * d;
    }
  }

  lemma QuotientAtLeast(x: real, d: real, bound: real)
    requires d > 0.0 && x >= bound * d
    ensures x / d >= bound
  {
    var q := x / d;
    assert q * d == x;
    if q < bound {
      assert (bound - q) * d > 0.0;
      assert bound * d - q * d == (bound - q) * d;
    }
  }

  /**
   * The rate without division: one below the sample threshold, otherwise the acknowledged share of
   * the saturated total, but never less than four fifths.
   */
  lemma AckRateMeaning(acked: nat, lost: nat)
    ensures var total := Sat(acked + lost);
            var rate := AckRate(acked, lost);
            if total < MIN_SAMPLE_BYTES then rate == 1.0
            else if 5 * acked >= 4 * total then rate * total as real == acked as real
            else rate == MIN_ACK_RATE
  {
    var total := Sat(acked + lost);
    if total >= MIN_SAMPLE_BYTES {
      var share := acked as real / total as real;
      assert share * total as real == acked as real;
      if 5 * acked >= 4 * total {
        QuotientAtLeast(acked as real, total as real, MIN_ACK_RATE);
      } else {
        QuotientAtMost(acked as real, total as real, MIN_ACK_RATE);
      }
    }
  }

  lemma {:induction false} TotalSaturated(ring: seq<Sample>, now: nat, kind: Kind)
    ensures Total(ring, now, kind) == Sat(Total(ring, now, kind))
  {
  }

  lemma RateAfterIsSane(history: seq<Sample>)
    ensures SaneAckRate(RateAfter(history))
  {
    if history != [] {
      var now := history[|history| - 1].second;
      TotalSaturated(Replay(history), now, Acked);
      TotalSaturated(Replay(history), now, Lost);
      AckRateIsSane(Total(Replay(history), now, Acked), Total(Replay(history), now, Lost));
    }
  }

  // ----- the window -----

  lemma TargetBounds(load: real, ackRate: real)
    requires load >= 0.0 && SaneAckRate(ackRate)
    ensures 0.8 * load <= load * PACING_FACTOR / ackRate <= load
  {
    var x := load * PACING_FACTOR;
    MulMonotone(PACING_FACTOR, ackRate, load);
    QuotientAtMost(x, ackRate, load);
    MulMonotone(ackRate, 1.0, x);
    QuotientAtLeast(x, ackRate, x);
  }

  lemma ToU64Monotone(x: real, y: real)
    requires 0.0 <= x <= y
    ensures ToU64(x) <= ToU64(y)
  {
  }

  /** Without loss the pacing window is 0.8 of rate times round trip; loss lifts it at most to all of it. */
  lemma WindowBounds(rate: nat, rtt: Duration, ackRate: real, mtu: nat)
    requires SaneAckRate(ackRate)
    ensures var load := rate as real * rtt;
            && Max(MIN_WINDOW, 2 * mtu) <= Window(rate, rtt, ackRate, mtu)
            && ToU64(0.8 * load) <= Window(rate, rtt, ackRate, mtu)
            && Window(rate, rtt, ackRate, mtu) <= Max(Max(ToU64(load), MIN_WINDOW), 2 * mtu)
  {
    var load := rate as real * rtt;
    TargetBounds(load, ackRate);
    ToU64Monotone(0.8 * load, Target(rate, rtt, ackRate));
    ToU64Monotone(Target(rate, rtt, ackRate), load);
  }

  /** The reported pacing rate, in bits per second, lies between 8 and 10 times the byte rate. */
  lemma PacingRateBounds(rate: nat, ackRate: real)
    requires SaneAckRate(ackRate)
    ensures ToU64(8.0 * rate as real) <= PacingRate(rate, ackRate) <= ToU64(10.0 * rate as real)
  {
    var r := rate as real;
    MulMonotone(ackRate, 1.0, r);
    QuotientAtLeast(r, ackRate, r);
    MulMonotone(MIN_ACK_RATE, ackRate, 1.25 * r);
    QuotientAtMost(r, ackRate, 1.25 * r);
    ToU64Monotone(8.0 * r, r / ackRate * 8.0);
    ToU64Monotone(r / ackRate * 8.0, 10.0 * r);
  }

  /** Loss compensation: a lower acknowledgement rate never shrinks the window. */
  lemma LossNeverShrinksWindow(rate: nat, rtt: Duration, lower: real, higher: real, mtu: nat)
    requires SaneAckRate(lower) && SaneAckRate(higher) && lower <= higher
    ensures Window(rate, rtt, lower, mtu) >= Window(rate, rtt, higher, mtu)
  {
    QuotientAntitone(rate as real * rtt * PACING_FACTOR, lower, higher);
    ToU64Monotone(Target(rate, rtt, higher), Target(rate, rtt, lower));
  }

  lemma QuotientAntitone(x: real, lower: real, higher: real)
    requires x >= 0.0 && 0.0 < lower <= higher
    ensures x / higher <= x / lower
  {
    var p := x / lower;
    assert p * lower == x;
    QuotientAtLeast(x, lower, 0.0);
    MulMonotone(lower, higher, p);
    QuotientAtMost(x, higher, p);
  }

  // ----- exactly how large -----

  /** n + 1 acknowledged at this rate exceeds x, or n is the largest u64. */
  predicate Exceeds(n: nat, x: real, ackRate: real) { n >= 0xFFFF_FFFF_FFFF_FFFF || (n + 1) as real * ackRate > x }

  lemma CastExceeds(x: real, ackRate: real)
    requires x >= 0.0 && SaneAckRate(ackRate)
    ensures x / ackRate >= 0.0 && Exceeds(ToU64(x / ackRate), x, ackRate)
  {
    var q := x / ackRate;
    assert q * ackRate == x;
    QuotientAtLeast(x, ackRate, 0.0);
    ScaledCompare((q.Floor + 1) as real, q, ackRate);
  }

  lemma CastAtMost(x: real, ackRate: real, n: nat)
    requires x >= 0.0 && SaneAckRate(ackRate) && Exceeds(n, x, ackRate)
    ensures x / ackRate >= 0.0 && ToU64(x / ackRate) <= n
  {
    var q := x / ackRate;
    assert q * ackRate == x;
    QuotientAtLeast(x, ackRate, 0.0);
    if n < 0xFFFF_FFFF_FFFF_FFFF {
      ScaledCompare((n + 1) as real, q, ackRate);
      assert q < (n + 1) as real;
    }
  }

  /** The cast of a quotient is the least such number: no division, no rounding. */
  lemma CastIsLeast(x: real, ackRate: real, n: nat)
    requires x >= 0.0 && SaneAckRate(ackRate)
    ensures x / ackRate >= 0.0 && Exceeds(ToU64(x / ackRate), x, ackRate)
    ensures Exceeds(n, x, ackRate) ==> ToU64(x / ackRate) <= n
  {
    CastExceeds(x, ackRate);
    if Exceeds(n, x, ackRate) {
      CastAtMost(x, ackRate, n);
    }
  }

  /** Wide enough: the two floors, and rate times round trip times 0.8 over the acknowledgement rate. */
  predicate Wide(w: nat, rate: nat, rtt: Duration, ackRate: real, mtu: nat) {
    w >= 10_240 && w >= 2 * mtu && Exceeds(w, rate as real * rtt * 0.8, ackRate)
  }

  /** The window is the least one that is wide enough. */
  lemma WindowIsLeast(rate: nat, rtt: Duration, ackRate: real, mtu: nat, w: nat)
    requires SaneAckRate(ackRate)
    ensures Wide(Window(rate, rtt, ackRate, mtu), rate, rtt, ackRate, mtu)
    ensures Wide(w, rate, rtt, ackRate, mtu) ==> Window(rate, rtt, ackRate, mtu) <= w
  {
    var x := rate as real * rtt * 0.8;
    assert Target(rate, rtt, ackRate) == x / ackRate;
    CastIsLeast(x, ackRate, w);
    ExceedsGrows(ToU64(x / ackRate), Window(rate, rtt, ackRate, mtu), x, ackRate);
  }

  lemma ExceedsGrows(n: nat, m: nat, x: real, ackRate: real)
    requires n <= m && SaneAckRate(ackRate) && Exceeds(n, x, ackRate)
    ensures Exceeds(m, x, ackRate)
  {
    MulMonotone((n + 1) as real, (m + 1) as real, ackRate);
  }

  /** The pacing rate is the least number of bits that covers eight bits a byte at the acknowledgement rate. */
  lemma PacingIsLeast(rate: nat, ackRate: real, p: nat)
    requires SaneAckRate(ackRate)
    ensures Exceeds(PacingRate(rate, ackRate), 8.0 * rate as real, ackRate)
    ensures Exceeds(p, 8.0 * rate as real, ackRate) ==> PacingRate(rate, ackRate) <= p
  {
    CastIsLeast(8.0 * rate as real, ackRate, p);
    assert rate as real / ackRate * 8.0 == 8.0 * rate as real / ackRate;
  }

  /**
   * The same from the bytes acknowledged and lost: below 60000 bytes nothing is compensated, above
   * the acknowledged share is, down to four fifths.
   */
  predicate ExceedsShare(n: nat, x: real, acked: nat, lost: nat) {
    var total := Sat(acked + lost);
    || n >= 0xFFFF_FFFF_FFFF_FFFF
    || if total < 60_000 then (n + 1) as real > x
       else if 5 * acked >= 4 * total then (n + 1) as real * acked as real > x * total as real
       else 4.0 * (n + 1) as real > 5.0 * x
  }

  lemma ShareMeans(n: nat, x: real, acked: nat, lost: nat)
    ensures Exceeds(n, x, AckRate(acked, lost)) <==> ExceedsShare(n, x, acked, lost)
  {
    AckRateMeaning(acked, lost);
    ShareOfRate(n, x, acked, Sat(acked + lost), AckRate(acked, lost));
  }

  lemma ShareOfRate(n: nat, x: real, acked: nat, total: nat, rate: real)
    requires if total < 60_000 then rate == 1.0
             else if 5 * acked >= 4 * total then rate * total as real == acked as real
             else rate == 0.8
    ensures (n + 1) as real * rate > x <==>
              if total < 60_000 then (n + 1) as real > x
              else if 5 * acked >= 4 * total then (n + 1) as real * acked as real > x * total as real
              else 4.0 * (n + 1) as real > 5.0 * x
  {
    if total >= 60_000 && 5 * acked >= 4 * total {
      ShareScaled((n + 1) as real, rate, x, acked as real, total as real);
    }
  }

  lemma ShareScaled(m: real, rate: real, x: real, acked: real, total: real)
    requires total > 0.0 && rate * total == acked
    ensures m * rate > x <==> m * acked > x * total
  {
    ScaledCompare(m * rate, x, total);
    assert m * rate * total == m * (rate * total);
  }

  lemma ScaledCompare(a: real, b: real, c: real)
    requires c > 0.0
    ensures a > b <==> a * c > b * c
  {
    assert a * c - b * c == (a - b) * c;
    if a > b {
      assert (a - b) * c > 0.0;
    } else {
      MulMonotone(a, b, c);
    }
  }

  /** The least window wide enough for what was acknowledged and lost. */
  ghost predicate IsWindowFor(w: nat, rate: nat, rtt: Duration, mtu: nat, acked: nat, lost: nat) {
    && WideFor(w, rate, rtt, mtu, acked, lost)
    && forall v: nat :: WideFor(v, rate, rtt, mtu, acked, lost) ==> w <= v
  }

  predicate WideFor(w: nat, rate: nat, rtt: Duration, mtu: nat, acked: nat, lost: nat) {
    w >= 10_240 && w >= 2 * mtu && ExceedsShare(w, rate as real * rtt * 0.8, acked, lost)
  }

  ghost predicate IsPacingFor(p: nat, rate: nat, acked: nat, lost: nat) {
    PacedFor(p, rate, acked, lost) && forall q: nat :: PacedFor(q, rate, acked, lost) ==> p <= q
  }

  predicate PacedFor(p: nat, rate: nat, acked: nat, lost: nat) { ExceedsShare(p, 8.0 * rate as real, acked, lost) }

  lemma WindowOfBytes(rate: nat, rtt: Duration, mtu: nat, acked: nat, lost: nat)
    requires SaneAckRate(AckRate(acked, lost))
    ensures IsWindowFor(Window(rate, rtt, AckRate(acked, lost), mtu), rate, rtt, mtu, acked, lost)
    ensures IsPacingFor(PacingRate(rate, AckRate(acked, lost)), rate, acked, lost)
  {
    var ackRate := AckRate(acked, lost);
    var w, p := Window(rate, rtt, ackRate, mtu), PacingRate(rate, ackRate);
    WindowIsLeast(rate, rtt, ackRate, mtu, w);
    ShareMeans(w, rate as real * rtt * 0.8, acked, lost);
    forall v: nat | WideFor(v, rate, rtt, mtu, acked, lost)
      ensures w <= v
    {
      ShareMeans(v, rate as real * rtt * 0.8, acked, lost);
      WindowIsLeast(rate, rtt, ackRate, mtu, v);
    }
    PacingIsLeast(rate, ackRate, p);
    ShareMeans(p, 8.0 * rate as real, acked, lost);
    forall q: nat | PacedFor(q, rate, acked, lost)
      ensures p <= q
    {
      ShareMeans(q, 8.0 * rate as real, acked, lost);
      PacingIsLeast(rate, ackRate, q);
    }
  }

  // ----- the controller object -----

  /** `saturating_duration_since(started).as_secs()`. */
  function WholeSeconds(started: Instant, now: Instant): (second: nat)
    ensures second < U64_MAX
  {
    if now >= started then (now - started) / NANOS else 0
  }

  lemma LaterSecond(started: Instant, now: Instant, later: Instant)
    requires now <= later
    ensures WholeSeconds(started, now) <= WholeSeconds(started, later)
  {
  }

  /** With a clock that does not go backwards every recorded history is clocked. */
  lemma RecordingKeepsClocked(history: seq<Sample>, started: Instant, last: Instant, now: Instant, acked: nat, lost: nat)
    requires Clocked(history) && LastSecond(history) <= WholeSeconds(started, last) && last <= now
    ensures Clocked(history + [Sample(WholeSeconds(started, now), acked, lost)])
  {
    LaterSecond(started, last, now);
  }

  /** The rate of everything recorded in the second of the last sample and the four before it. */
  ghost predicate RateOfWindow(ackRate: real, history: seq<Sample>)
    requires history != []
  {
    var second := history[|history| - 1].second;
    ackRate == AckRate(Sat(Sum(history, second - 4, second, Acked)), Sat(Sum(history, second - 4, second, Lost)))
  }

  /** The instants at which the samples were recorded, in nanoseconds, with their whole seconds. */
  ghost predicate RecordedAt(history: seq<Sample>, instants: seq<Instant>, started: Instant) {
    |instants| == |history| && forall i :: 0 <= i < |history| ==> history[i].second == WholeSeconds(started, instants[i])
  }

  /** All instants lie between the start and the last one. */
  ghost predicate Within(instants: seq<Instant>, started: Instant, last: Instant) {
    && started <= last && (forall i :: 0 <= i < |instants| ==> started <= instants[i] <= last)
    && (instants != [] ==> instants[|instants| - 1] == last)
  }

  lemma InstantsGrow(history: seq<Sample>, instants: seq<Instant>, started: Instant, last: Instant, sample: Sample, now: Instant)
    requires RecordedAt(history, instants, started) && sample.second == WholeSeconds(started, now)
    ensures RecordedAt(history + [sample], instants + [now], started)
    ensures Within(instants, started, last) && last <= now ==> Within(instants + [now], started, now)
  {
  }

  /** Bytes of the samples recorded at or after the instant `from`. */
  ghost function SumSince(history: seq<Sample>, instants: seq<Instant>, from: int, kind: Kind): nat
    requires |instants| == |history|
  {
    if history == [] then 0 else
    var n := |history| - 1;
    SumSince(history[..n], instants[..n], from, kind) + if instants[n] >= from then Bytes(history[n], kind) else 0
  }

  /** The start of the fourth whole second before the one that contains `last`, counted from `started`. */
  function WindowStart(started: Instant, last: Instant): int
    requires started <= last
  {
    started + ((last - started) / 1_000_000_000 - 4) * 1_000_000_000
  }

  lemma {:induction false} SumIsSince(history: seq<Sample>, instants: seq<Instant>, started: Instant, last: Instant, kind: Kind)
    requires RecordedAt(history, instants, started) && started <= last
    requires forall i :: 0 <= i < |instants| ==> started <= instants[i] <= last
    ensures var second := WholeSeconds(started, last);
            Sum(history, second - 4, second, kind) == SumSince(history, instants, WindowStart(started, last), kind)
  {
    if history != [] {
      var n := |history| - 1;
      SumIsSince(history[..n], instants[..n], started, last, kind);
    }
  }

  ghost predicate ClockedBy(history: seq<Sample>, second: nat) { Clocked(history) && LastSecond(history) <= second }

  /** What one more sample does to the history and to the ring that replays it. */
  lemma Recorded(history: seq<Sample>, started: Instant, last: Instant, now: Instant, sample: Sample, monotonic: bool)
    requires sample.second == WholeSeconds(started, now)
    requires monotonic ==> ClockedBy(history, WholeSeconds(started, last)) && last <= now
    ensures var grown := history + [sample];
            var ring := Store(Replay(history), sample);
            && Replay(grown) == ring
            && RateAfter(grown) == AckRate(Total(ring, sample.second, Acked), Total(ring, sample.second, Lost))
            && SaneAckRate(RateAfter(grown))
            && (monotonic ==> ClockedBy(grown, sample.second) && RateOfWindow(RateAfter(grown), grown))
  {
    var grown := history + [sample];
    assert grown[..|history|] == history;
    RateAfterIsSane(grown);
    if monotonic {
      RecordingKeepsClocked(history, started, last, now, sample.acked, sample.lost);
      RateEqualsHistory(grown);
    }
  }

  /** The slot update of `record`, in place. */
  method StoreSample(slots: array<Sample>, second: nat, acked: nat, lost: nat)
    requires slots.Length == SLOT_COUNT
    modifies slots
    ensures slots[..] == Store(old(slots[..]), Sample(second, acked, lost))
  {
    var i := second % SLOT_COUNT;
    if slots[i].second != second {
      slots[i] := Sample(second, 0, 0);
    }
    slots[i] := Sample(second, Sat(slots[i].acked + acked), Sat(slots[i].lost + lost));
  }

  /** The filter and fold of `record`. */
  method Totals(slots: array<Sample>, now: nat) returns (acked: nat, lost: nat)
    ensures acked == Total(slots[..], now, Acked) && lost == Total(slots[..], now, Lost)
  {
    acked, lost := 0, 0;
    for k := 0 to slots.Length
      invariant acked == Total(slots[..k], now, Acked)
      invariant lost == Total(slots[..k], now, Lost)
    {
      assert slots[..k + 1][..k] == slots[..k];
      acked := Sat(acked + Contribution(slots[k], now, Acked));
      lost := Sat(lost + Contribution(slots[k], now, Lost));
    }
    assert slots[..slots.Length] == slots[..];
  }

  /** The atomic rate cell shared with the connection that negotiates the bandwidth. */
  class RateCell {
    var value: nat

    constructor (value: nat)
      ensures this.value == value
    {
      this.value := value;
    }
  }

  class BrutalController {
    const rate: RateCell
    const started: Instant
    var mtu: nat
    var rtt: Duration
    var ackRate: real
    var slots: array<Sample>
    var cachedRate: nat
    var cachedWindow: nat
    var cachedPacingRate: nat
    ghost var history: seq<Sample>
    ghost var instants: seq<Instant>  // when each sample was recorded
    ghost var last: Instant       // when the last sample was recorded
    ghost var monotonic: bool     // the clock has not gone backwards so far

    /** The ring replays the history; with a monotonic clock the history is clocked. */
    ghost predicate RingOk()
      reads this, slots
    {
      && slots.Length == SLOT_COUNT && slots[..] == Replay(history)
      && RecordedAt(history, instants, started)
      && (monotonic ==> ClockedBy(history, SecondAt(last)) && Within(instants, started, last))
    }

    /** Bytes acknowledged or lost in the current second of the controller and the four before it. */
    ghost function Recent(kind: Kind): nat
      reads this, slots
      requires RingOk() && monotonic
    {
      Sat(SumSince(history, instants, WindowStart(started, last), kind))
    }

    lemma RateIsRecent()
      requires Valid() && monotonic
      ensures ackRate == AckRate(Recent(Acked), Recent(Lost))
    {
      if history != [] {
        RateEqualsHistory(history);
        SumIsSince(history, instants, started, last, Acked);
        SumIsSince(history, instants, started, last, Lost);
      }
    }

    /** Beside that, the cache is a fresh computation for the cached rate. */
    ghost predicate Valid()
      reads this, slots
    {
      && RingOk()
      && ackRate == RateAfter(history) && SaneAckRate(ackRate)
      && cachedWindow == Window(cachedRate, rtt, ackRate, mtu)
      && cachedPacingRate == PacingRate(cachedRate, ackRate)
    }

    constructor (rate: RateCell, mtu: nat, now: Instant)
      ensures Valid() && fresh(slots) && history == [] && instants == [] && this.rate == rate && this.started == now
      ensures last == now && monotonic
      ensures this.mtu == mtu && rtt == 0.1 && cachedRate == rate.value
    {
      this.rate := rate;
      this.mtu := mtu;
      this.started := now;
      this.rtt := 0.1;
      this.ackRate := 1.0;
      this.slots := new Sample[SLOT_COUNT](_ => NO_SAMPLE);
      this.cachedRate := U64_MAX;
      this.cachedWindow := MIN_WINDOW;
      this.cachedPacingRate := 0;
      this.history := [];
      this.instants := [];
      this.last := now;
      this.monotonic := true;
      new;
      RefreshCache(true);
      assert slots[..] == EMPTY_RING;
    }

    method RefreshCache(force: bool)
      requires SaneAckRate(ackRate)
      requires force || (&& cachedWindow == Window(cachedRate, rtt, ackRate, mtu)
                         && cachedPacingRate == PacingRate(cachedRate, ackRate))
      modifies this`cachedRate, this`cachedWindow, this`cachedPacingRate
      ensures cachedRate == rate.value
      ensures cachedWindow == Window(rate.value, rtt, ackRate, mtu)
      ensures cachedPacingRate == PacingRate(rate.value, ackRate)
    {
      var current := rate.value;
      if !force && current == cachedRate {
        return;
      }
      cachedRate := current;
      cachedWindow := Window(current, rtt, ackRate, mtu);
      cachedPacingRate := PacingRate(current, ackRate);
    }

    function SecondAt(now: Instant): nat
    {
      WholeSeconds(started, now)
    }

    method Record(now: Instant, acked: nat, lost: nat)
      requires RingOk()
      modifies this, slots
      ensures Valid() && slots == old(slots) && cachedRate == rate.value
      ensures history == old(history) + [Sample(SecondAt(now), acked, lost)] && instants == old(instants) + [now]
      ensures last == now && monotonic == (old(monotonic) && old(last) <= now)
      ensures monotonic ==> RateOfWindow(ackRate, history)
      ensures mtu == old(mtu) && rtt == old(rtt)
    {
      RecordSample(SecondAt(now), now, acked, lost);
      RefreshCache(true);
    }

    /** Everything in `record` but the cache. */
    method RecordSample(second: nat, now: Instant, acked: nat, lost: nat)
      requires RingOk() && second == SecondAt(now)
      modifies slots, this`history, this`instants, this`last, this`monotonic, this`ackRate
      ensures RingOk() && ackRate == RateAfter(history) && SaneAckRate(ackRate)
      ensures history == old(history) + [Sample(second, acked, lost)] && instants == old(instants) + [now]
      ensures last == now && monotonic == (old(monotonic) && old(last) <= now)
      ensures monotonic ==> RateOfWindow(ackRate, history)
    {
      monotonic := monotonic && last <= now;
      ghost var grown := history + [Sample(second, acked, lost)];
      Recorded(history, started, last, now, Sample(second, acked, lost), monotonic);
      InstantsGrow(history, instants, started, last, Sample(second, acked, lost), now);
      StoreSample(slots, second, acked, lost);
      var ackedTotal, lostTotal := Totals(slots, second);
      ackRate := AckRate(ackedTotal, lostTotal);
      assert ackRate == RateAfter(grown);
      history, instants, last := grown, instants + [now], now;
    }

    method OnAck(now: Instant, bytes: nat, newRtt: Duration)
      requires Valid()
      modifies this, slots
      ensures Valid() && slots == old(slots)
      ensures history == old(history) + [Sample(SecondAt(now), bytes, 0)] && instants == old(instants) + [now]
      ensures last == now && monotonic == (old(monotonic) && old(last) <= now)
      ensures monotonic ==> RateOfWindow(ackRate, history)
      ensures rtt == newRtt && mtu == old(mtu)
    {
      rtt := newRtt;
      Record(now, bytes, 0);
    }

    method OnCongestionEvent(now: Instant, lostBytes: nat)
      requires Valid()
      modifies this, slots
      ensures Valid() && slots == old(slots)
      ensures history == old(history) + [Sample(SecondAt(now), 0, lostBytes)] && instants == old(instants) + [now]
      ensures last == now && monotonic == (old(monotonic) && old(last) <= now)
      ensures monotonic ==> RateOfWindow(ackRate, history)
      ensures rtt == old(rtt) && mtu == old(mtu)
    {
      Record(now, 0, lostBytes);
    }

    method OnMtuUpdate(newMtu: nat)
      requires Valid()
      modifies this
      ensures Valid() && slots == old(slots) && history == old(history) && instants == old(instants)
      ensures last == old(last) && monotonic == old(monotonic)
      ensures mtu == newMtu && rtt == old(rtt) && ackRate == old(ackRate)
    {
      mtu := newMtu;
      RefreshCache(true);
    }

    /** `window()`, `initial_window()` and the window in `metrics()`: always the fresh value for the current rate. */
    method CurrentWindow() returns (w: nat)
      requires Valid()
      modifies this`cachedRate, this`cachedWindow, this`cachedPacingRate
      ensures Valid()
      ensures w == Window(rate.value, rtt, ackRate, mtu)
      ensures monotonic ==> IsWindowFor(w, rate.value, rtt, mtu, Recent(Acked), Recent(Lost))
    {
      RefreshCache(false);
      w := cachedWindow;
      if monotonic {
        RateIsRecent();
        WindowOfBytes(rate.value, rtt, mtu, Recent(Acked), Recent(Lost));
      }
    }

    method Metrics() returns (congestionWindow: nat, pacingRate: nat)
      requires Valid()
      modifies this`cachedRate, this`cachedWindow, this`cachedPacingRate
      ensures Valid()
      ensures congestionWindow == Window(rate.value, rtt, ackRate, mtu)
      ensures pacingRate == PacingRate(rate.value, ackRate)
      ensures monotonic ==> && IsWindowFor(congestionWindow, rate.value, rtt, mtu, Recent(Acked), Recent(Lost))
                            && IsPacingFor(pacingRate, rate.value, Recent(Acked), Recent(Lost))
    {
      RefreshCache(false);
      congestionWindow, pacingRate := cachedWindow, cachedPacingRate;
      if monotonic {
        RateIsRecent();
        WindowOfBytes(rate.value, rtt, mtu, Recent(Acked), Recent(Lost));
      }
    }

    /** A clone shares the rate cell and nothing else; it answers as the original does. */
    constructor Clone(original: BrutalController)
      requires original.Valid()
      ensures Valid() && fresh(slots) && rate == original.rate && started == original.started
      ensures history == original.history && instants == original.instants && last == original.last && monotonic == original.monotonic
      ensures mtu == original.mtu && rtt == original.rtt && ackRate == original.ackRate
    {
      rate := original.rate;
      mtu := original.mtu;
      started := original.started;
      rtt := original.rtt;
      ackRate := original.ackRate;
      slots := new Sample[SLOT_COUNT](i requires 0 <= i < SLOT_COUNT && original.slots.Length == SLOT_COUNT
                                      reads original, original.slots => original.slots[i]);
      cachedRate := original.cachedRate;
      cachedWindow := original.cachedWindow;
      cachedPacingRate := original.cachedPacingRate;
      history := original.history;
      instants := original.instants;
      last := original.last;
      monotonic := original.monotonic;
      new;
      assert slots[..] == original.slots[..];
    }
  }

  /** The shared cell changes under a controller and its clone; both still answer with fresh values. */
  method RateChangesUnderneath(cell: RateCell, controller: BrutalController, newRate: nat)
    returns (w: nat, cloned: nat)
    requires controller.rate == cell && controller.Valid()
    modifies cell, controller
    ensures controller.Valid()
    ensures w == Window(newRate, controller.rtt, controller.ackRate, controller.mtu)
    ensures cloned == w
  {
    var copy := new BrutalController.Clone(controller);
    assert cell as object != controller;
    cell.value := newRate;
    assert controller.Valid() && copy.Valid();
    w := controller.CurrentWindow();
    cloned := copy.CurrentWindow();
  }
}
