/**
 * The sanity meter: it starts full, loses one point every ten seconds down to
 * a floor, is restored to full by certain actions, and sets the heartbeat
 * pace and the strength of the visual distortion.
 */
module Sanity {
  const MaxSanity: int := 100
  const MinSanity: int := 20
  const MinHeartbeatDelayMs: int := 2000
  const HeartbeatMsPerPoint: int := 50

  /** One decay tick: down by one, never below the floor. */
  function Decay(s: int): int {
    if s - 1 < MinSanity then MinSanity else s - 1
  }

  /** `restoreSanity`. */
  function Restore(): int {
    MaxSanity
  }

  datatype SanityEvent = Tick | Restored

  function Step(s: int, e: SanityEvent): int {
    match e
    case Tick => Decay(s)
    case Restored => Restore()
  }

  /** The meter after a sequence of ticks and restores. */
  function Replay(s: int, events: seq<SanityEvent>): int
    decreases |events|
  {
    if events == [] then s else Replay(Step(s, events[0]), events[1..])
  }

  /** From any value in range, the meter stays between the floor and full. */
  lemma {:induction false} ReplayInRange(s: int, events: seq<SanityEvent>)
    requires MinSanity <= s <= MaxSanity
    ensures MinSanity <= Replay(s, events) <= MaxSanity
    decreases |events|
  {
    if events != [] {
      ReplayInRange(Step(s, events[0]), events[1..]);
    }
  }

  function Ticks(k: nat): seq<SanityEvent> {
    seq(k, _ => Tick)
  }

  /** `k` ticks from `s` (at or above the floor) leave `max(20, s - k)`. */
  lemma {:induction false} TicksClosedForm(s: int, k: nat)
    requires s >= MinSanity
    ensures Replay(s, Ticks(k)) == if s - k < MinSanity then MinSanity else s - k
    decreases k
  {
    if k > 0 {
      assert Ticks(k)[0] == Tick && Ticks(k)[1..] == Ticks(k - 1);
      TicksClosedForm(Decay(s), k - 1);
    }
  }

  /** The meter starts full, so after 80 ticks without a restore it sits at the floor for good. */
  lemma FloorReached(k: nat)
    requires k >= MaxSanity - MinSanity
    ensures Replay(MaxSanity, Ticks(k)) == MinSanity
  {
    TicksClosedForm(MaxSanity, k);
  }

  /** The delay before the next heartbeat attempt: 50 ms per point, at least 2 s. */
  function HeartbeatDelayMs(s: int): int {
    if s * HeartbeatMsPerPoint > MinHeartbeatDelayMs then s * HeartbeatMsPerPoint else MinHeartbeatDelayMs
  }

  /**
   * Over the meter's range the delay lies between 2 and 5 s, grows with
   * sanity, and sits at the 2 s minimum exactly at 40 points or fewer.
   */
  lemma HeartbeatDelayRange(s: int, t: int)
    requires MinSanity <= s <= MaxSanity
    ensures MinHeartbeatDelayMs <= HeartbeatDelayMs(s) <= 5000
    ensures s <= t ==> HeartbeatDelayMs(s) <= HeartbeatDelayMs(t)
    ensures HeartbeatDelayMs(s) == MinHeartbeatDelayMs <==> s <= 40
  {
  }

  /** The distortion classes `getSanityStyles` returns. */
  const NoDistortion: string := ""
  const SlightBlur: string := "blur-[0.5px]"
  const BlurAndSepia: string := "blur-[1px] sepia-[0.3]"

  function SanityStyles(s: int): string {
    if s > 80 then NoDistortion
    else if s > 40 then SlightBlur
    else BlurAndSepia
  }

  /** How strong a distortion class is: 0, 1 or 2. */
  function Severity(style: string): nat {
    if style == NoDistortion then 0 else if style == SlightBlur then 1 else 2
  }

  /**
   * Less sanity never means less distortion; full sanity shows none and the
   * floor shows the strongest.
   */
  lemma StylesMonotone(a: int, b: int)
    requires a <= b
    ensures Severity(SanityStyles(a)) >= Severity(SanityStyles(b))
    ensures SanityStyles(MaxSanity) == NoDistortion && SanityStyles(MinSanity) == BlurAndSepia
  {
  }

  /** One tick moves the distortion up by at most one level. */
  lemma TickRaisesStyleByAtMostOne(s: int)
    ensures Severity(SanityStyles(Decay(s))) <= Severity(SanityStyles(s)) + 1
  {
  }
}
