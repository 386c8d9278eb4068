/**
 The nanosecond pacer of the sinks. A packet is released when the wall clock reaches the
 deadline of the frames delivered so far; a late packet is released at once.
 Instants are nanoseconds since the sink was started.
 */
module Pacing {
  import opened Base

  const SAMPLE_RATE: nat := 44_100
  const NS_PER_S: nat := 1_000_000_000
  const U128_LIMIT: nat := 0x1_0000_0000_0000_0000_0000_0000_0000_0000

  /** Saturating 64-bit addition of frame counts. */
  function SatAdd64(a: nat, b: nat): nat {
    Min(a + b, U64_LIMIT - 1)
  }

  /** Saturating 128-bit addition of frame counts. */
  function SatAdd128(a: nat, b: nat): nat {
    Min(a + b, U128_LIMIT - 1)
  }

  /** When the last of `frames` frames is due. A 64-bit frame count cannot overflow the 128-bit product. */
  function Deadline(frames: nat, latency: nat): nat {
    frames * NS_PER_S / SAMPLE_RATE + latency
  }

  /** The same for a 128-bit timeline, where the product and the sum wrap. */
  function WrappingDeadline(frames: nat, latency: nat): nat {
    (frames * NS_PER_S % U128_LIMIT / SAMPLE_RATE + latency) % U128_LIMIT
  }

  /** The latency has 64 bits of milliseconds, so the sum fits; the deadline is right unless the product wraps. */
  lemma DeadlineIsRightUnlessItWraps(frames: nat, latency: nat)
    requires latency < U64_LIMIT * 1_000_000
    ensures WrappingDeadline(frames, latency) == Deadline(frames, latency) <==> frames * NS_PER_S < U128_LIMIT
  {
    var product := frames * NS_PER_S;
    if product < U128_LIMIT {
      assert product % U128_LIMIT == product;
      assert product / SAMPLE_RATE + latency < U128_LIMIT;
    } else {
      assert product % U128_LIMIT <= product - U128_LIMIT;
      assert product % U128_LIMIT / SAMPLE_RATE < product / SAMPLE_RATE;
      assert WrappingDeadline(frames, latency) <= product % U128_LIMIT / SAMPLE_RATE + latency;
    }
  }

  /** When a packet that is ready at `elapsed` leaves: the park time is cut to 64 bits, and a sleep may overshoot. */
  function Release(expected: nat, elapsed: nat, overshoot: nat): nat {
    if expected > elapsed then elapsed + (expected - elapsed) % U64_LIMIT + overshoot else elapsed
  }

  /** With exact sleeps a packet waits for its deadline if and only if the wait fits 64 bits of nanoseconds. */
  lemma ReleaseMeetsDeadline(expected: nat, elapsed: nat)
    ensures Release(expected, elapsed, 0) >= expected <==> expected < elapsed + U64_LIMIT
    ensures expected < elapsed + U64_LIMIT ==> Release(expected, elapsed, 0) == Max(expected, elapsed)
  {
    if expected >= elapsed + U64_LIMIT {
      assert (expected - elapsed) % U64_LIMIT < U64_LIMIT;
    }
  }

  /** A latency whose milliseconds fit 64 bits and whose nanoseconds do not lets the first packet leave early. */
  lemma LongLatencyIsCutShort()
    ensures var due := Deadline(0, 18_446_744_073_710 * 1_000_000);
            Release(due, 0, 0) == 448_384 < due
  {
  }

  /** A run of PCM packets: the frames of each, how long after the previous send it is ready, and its overshoot. */
  datatype Packet = Packet(frames: nat, gap: nat, overshoot: nat)

  datatype Paced = Paced(frames: nat, sentAt: nat)

  function Send(p: Paced, k: Packet, latency: nat): Paced {
    var frames := SatAdd64(p.frames, k.frames);
    Paced(frames, Release(Deadline(frames, latency), p.sentAt + k.gap, k.overshoot))
  }

  function Sends(ks: seq<Packet>, latency: nat): Paced {
    if ks == [] then Paced(0, 0) else Send(Sends(Front(ks), latency), Last(ks), latency)
  }

  function TotalFrames(ks: seq<Packet>): nat {
    if ks == [] then 0 else TotalFrames(Front(ks)) + Last(ks).frames
  }

  /** When the last packet of a run is ready. */
  function ReadyAt(ks: seq<Packet>, latency: nat): nat
    requires ks != []
  {
    Sends(Front(ks), latency).sentAt + Last(ks).gap
  }

  lemma {:induction false} FramesOfRun(ks: seq<Packet>, latency: nat)
    ensures Sends(ks, latency).frames == Min(TotalFrames(ks), U64_LIMIT - 1)
  {
    if ks != [] {
      FramesOfRun(Front(ks), latency);
    }
  }

  lemma FloorBound(frames: nat)
    ensures frames * NS_PER_S < (frames * NS_PER_S / SAMPLE_RATE + 1) * SAMPLE_RATE
  {
  }

  /**
   Delivery never leads the wall clock by a whole frame: whatever the gaps and overshoots of a run, the last send
   is no earlier than the floor of its cumulative frame time plus the latency, so the frames sent so far are worth
   less than the time elapsed past the latency plus one nanosecond.
   */
  lemma DeliveryStaysBehindClock(ks: seq<Packet>, latency: nat)
    requires ks != []
    requires Deadline(Min(TotalFrames(ks), U64_LIMIT - 1), latency) < ReadyAt(ks, latency) + U64_LIMIT
    ensures var F := Min(TotalFrames(ks), U64_LIMIT - 1);
            var t := Sends(ks, latency).sentAt;
            t >= Deadline(F, latency) && F * NS_PER_S < (t - latency + 1) * SAMPLE_RATE
  {
    FramesOfRun(ks, latency);
    var F := Min(TotalFrames(ks), U64_LIMIT - 1);
    ReleaseMeetsDeadline(Deadline(F, latency), ReadyAt(ks, latency));
    FloorBound(F);
  }

  /**
   Deadlines depend on the frame count alone. Two runs that carry the same frames but stall differently send
   their last packet at the same instant as soon as both have caught up with its deadline.
   */
  lemma LateWriteDoesNotShiftLaterDeadlines(ks: seq<Packet>, js: seq<Packet>, latency: nat)
    requires |ks| == |js| > 0
    requires forall i :: 0 <= i < |ks| ==> ks[i].frames == js[i].frames
    requires Last(ks).overshoot == Last(js).overshoot == 0
    requires Deadline(Min(TotalFrames(ks), U64_LIMIT - 1), latency) < ReadyAt(ks, latency) + U64_LIMIT
    requires Deadline(Min(TotalFrames(ks), U64_LIMIT - 1), latency) < ReadyAt(js, latency) + U64_LIMIT
    requires ReadyAt(ks, latency) <= Deadline(Min(TotalFrames(ks), U64_LIMIT - 1), latency)
    requires ReadyAt(js, latency) <= Deadline(Min(TotalFrames(ks), U64_LIMIT - 1), latency)
    ensures Sends(ks, latency) == Sends(js, latency)
    ensures Sends(ks, latency).sentAt == Deadline(Min(TotalFrames(ks), U64_LIMIT - 1), latency)
  {
    hide Sends, ReadyAt, Deadline;
    SameFrames(ks, js);
    PunctualSend(ks, latency);
    PunctualSend(js, latency);
  }

  /** A packet that is ready in time and does not overshoot is sent at its deadline. */
  lemma PunctualSend(ks: seq<Packet>, latency: nat)
    requires ks != [] && Last(ks).overshoot == 0
    requires ReadyAt(ks, latency) <= Deadline(Min(TotalFrames(ks), U64_LIMIT - 1), latency)
    requires Deadline(Min(TotalFrames(ks), U64_LIMIT - 1), latency) < ReadyAt(ks, latency) + U64_LIMIT
    ensures var F := Min(TotalFrames(ks), U64_LIMIT - 1);
            Sends(ks, latency) == Paced(F, Deadline(F, latency))
  {
    hide Deadline, Release;
    FramesOfRun(ks, latency);
    ReleaseMeetsDeadline(Deadline(Min(TotalFrames(ks), U64_LIMIT - 1), latency), ReadyAt(ks, latency));
  }

  lemma {:induction false} SameFrames(ks: seq<Packet>, js: seq<Packet>)
    requires |ks| == |js|
    requires forall i :: 0 <= i < |ks| ==> ks[i].frames == js[i].frames
    ensures TotalFrames(ks) == TotalFrames(js)
  {
    if ks != [] {
      SameFrames(Front(ks), Front(js));
    }
  }

  /** The deadline is the time of the frames at 44100 a second, rounded down to a nanosecond, plus the latency. */
  lemma DeadlineIsFrameTime(frames: nat, latency: nat)
    ensures var time := Deadline(frames, latency) - latency;
            time * 44_100 <= frames * 1_000_000_000 < (time + 1) * 44_100
  {
    FloorBound(frames);
  }

  /** A packet that comes early sleeps, and its sleep may overshoot; one that comes late does not sleep. */
  lemma OvershootDelays(expected: nat, elapsed: nat, overshoot: nat)
    ensures Release(expected, elapsed, overshoot)
         == Release(expected, elapsed, 0) + if elapsed < expected then overshoot else 0
  {
  }

  /** The limits at which the counters saturate are those of the machine's 64 and 128 bits. */
  lemma Limits()
    ensures SatAdd64(18_446_744_073_709_551_615, 1) == 18_446_744_073_709_551_615
    ensures SatAdd64(18_446_744_073_709_551_614, 1) == 18_446_744_073_709_551_615
    ensures SatAdd128(340_282_366_920_938_463_463_374_607_431_768_211_455, 1)
         == SatAdd128(340_282_366_920_938_463_463_374_607_431_768_211_454, 1)
         == 340_282_366_920_938_463_463_374_607_431_768_211_455
  {
  }

  /** Whatever wraps, the Ogg deadline is a 128-bit number. */
  lemma WrappingDeadlineFits(frames: nat, latency: nat)
    ensures WrappingDeadline(frames, latency) <= 340_282_366_920_938_463_463_374_607_431_768_211_455
  {
  }
}
