/** A body that is slowed down to a bit rate: every chunk is held back for the time it would take. Times
    are in milliseconds; a timer that is due is seen by the next poll. */
module ThrottledBody {
  import opened Wrappers

  type Bytes = seq<bv8>

  datatype Frame = Data(data: Bytes) | Trailers(fields: map<string, string>)

  /** What the wrapped body answers when it is polled; after the last answer it has ended. */
  datatype Answer = NotReady | Yields(frame: Frame) | Fails(message: string)

  datatype Poll = Pending | Ready(frame: Frame) | Error(message: string) | End

  datatype State = State(inner: seq<Answer>, bytesPerSec: nat, delay: Option<nat>, pending: Option<Frame>)

  // ---- Arithmetic on 64-bit unsigned numbers that saturate ----

  const U64_MAX := 0xffff_ffff_ffff_ffff

  function SaturatingMul(a: nat, b: nat): nat {
    if a * b > U64_MAX then U64_MAX else a * b
  }

  function RateOf(kbps: nat): nat {
    if kbps == 0 then 0 else SaturatingMul(kbps, 1000) / 8
  }

  function DelayForChunk(bytesPerSec: nat, chunkLen: nat): Option<nat> {
    if bytesPerSec == 0 || chunkLen == 0 then None
    else
      var delayMs := SaturatingMul(chunkLen, 1000) / bytesPerSec;
      if delayMs == 0 then None else Some(delayMs)
  }

  function FrameDelay(bytesPerSec: nat, frame: Frame): Option<nat> {
    if frame.Data? then DelayForChunk(bytesPerSec, |frame.data|) else None
  }

  // ---- One poll ----

  /** A delay runs exactly while a frame is held back. */
  predicate Valid(s: State) {
    s.delay.Some? <==> s.pending.Some?
  }

  function Next(s: State, now: nat): (State, Poll)
    requires Valid(s)
  {
    if s.delay.Some? then
      if now < s.delay.value then (s, Pending) else (s.(delay := None, pending := None), Ready(s.pending.value))
    else if s.inner == [] then (s, End)
    else
      var rest := s.(inner := s.inner[1..]);
      match s.inner[0]
      case NotReady => (rest, Pending)
      case Fails(message) => (rest, Error(message))
      case Yields(frame) =>
        match FrameDelay(s.bytesPerSec, frame)
        case None => (rest, Ready(frame))
        case Some(duration) => (rest.(pending := Some(frame), delay := Some(now + duration)), Pending)
  }

  function Start(inner: seq<Answer>, kbps: nat): State {
    State(inner, RateOf(kbps), None, None)
  }

  class Throttled {
    var inner: seq<Answer>
    const bytesPerSec: nat
    var delay: Option<nat>
    var pending: Option<Frame>

    constructor (inner: seq<Answer>, kbps: nat)
      ensures Current() == Start(inner, kbps) && Valid(Current())
    {
      this.inner, delay, pending := inner, None, None;
      bytesPerSec := RateOf(kbps);
    }

    function Current(): State
      reads this
    {
      State(inner, bytesPerSec, delay, pending)
    }

    method PollFrame(now: nat) returns (r: Poll)
      requires Valid(Current())
      modifies this
      ensures Valid(Current()) && (Current(), r) == Next(old(Current()), now)
    {
      hide DelayForChunk;
      while true
        invariant Valid(Current())
        invariant Next(Current(), now) == Next(old(Current()), now)
        decreases |inner|
      {
        if delay.Some? {
          if now < delay.value {
            return Pending;
          }
          delay := None;
          var frame := pending.value;
          pending := None;
          return Ready(frame);
        }
        if inner == [] {
          return End;
        }
        var answer := inner[0];
        inner := inner[1..];
        match answer {
          case Yields(frame) =>
            if frame.Data? {
              var duration := DelayForChunk(bytesPerSec, |frame.data|);
              if duration.Some? {
                DelayIsPositive(bytesPerSec, |frame.data|);
                pending := Some(frame);
                delay := Some(now + duration.value);
                continue;
              }
            }
            return Ready(frame);
          case NotReady =>
            return Pending;
          case Fails(message) =>
            return Error(message);
        }
      }
    }

    method IsEndStream(innerIsEnd: bool) returns (ended: bool)
      ensures ended == EndsStream(Current(), innerIsEnd)
    {
      return innerIsEnd && delay.None? && pending.None?;
    }
  }

  predicate EndsStream(s: State, innerIsEnd: bool) {
    innerIsEnd && s.delay.None? && s.pending.None?
  }

  lemma DelayIsPositive(bytesPerSec: nat, chunkLen: nat)
    ensures DelayForChunk(bytesPerSec, chunkLen).Some? ==> DelayForChunk(bytesPerSec, chunkLen).value > 0
  {
  }

  // ---- Every run ----

  ghost predicate Run(inner: seq<Answer>, kbps: nat, times: seq<nat>, states: seq<State>, polls: seq<Poll>) {
    && |states| == |times| + 1 && |polls| == |times|
    && states[0] == Start(inner, kbps)
    && forall i | 0 <= i < |times| :: Valid(states[i]) && (states[i + 1], polls[i]) == Next(states[i], times[i])
  }

  lemma RunStep(inner: seq<Answer>, kbps: nat, times: seq<nat>, states: seq<State>, polls: seq<Poll>, i: nat)
    requires Run(inner, kbps, times, states, polls) && i < |times|
    ensures Valid(states[i]) && (states[i + 1], polls[i]) == Next(states[i], times[i])
  {
    hide Next, Valid;
  }

  lemma {:induction false} FramesOfTail(inner: seq<Answer>)
    requires inner != []
    ensures FramesOf(inner) == (if inner[0].Yields? then [inner[0].frame] else []) + FramesOf(inner[1..])
  {
  }

  function FramesOf(inner: seq<Answer>): seq<Frame> {
    if inner == [] then [] else (if inner[0].Yields? then [inner[0].frame] else []) + FramesOf(inner[1..])
  }

  /** The frames handed out by the first `n` polls. */
  function Out(polls: seq<Poll>, n: nat): seq<Frame>
    requires n <= |polls|
  {
    if n == 0 then []
    else Out(polls, n - 1) + if polls[n - 1].Ready? then [polls[n - 1].frame] else []
  }

  function Held(s: State): seq<Frame> {
    if s.pending.Some? then [s.pending.value] else []
  }

  lemma NextKeepsFrames(s: State, now: nat)
    requires Valid(s)
    ensures Valid(Next(s, now).0)
    ensures Held(s) + FramesOf(s.inner) ==
            (if Next(s, now).1.Ready? then [Next(s, now).1.frame] else [])
            + Held(Next(s, now).0) + FramesOf(Next(s, now).0.inner)
  {
    hide FrameDelay, FramesOf;
    if s.delay.None? && s.inner != [] {
      FramesOfTail(s.inner);
      var more := FramesOf(s.inner[1..]);
      assert [] + more == more && [] + [] + more == more;
    }
  }

  /** In every reachable state a delay exists exactly when a frame is held back. The frames handed out, the
      one held back and those still to come are, in order, the frames of the wrapped body. */
  lemma {:induction false} NothingIsLost(inner: seq<Answer>, kbps: nat, times: seq<nat>, states: seq<State>,
                                         polls: seq<Poll>, i: nat)
    requires Run(inner, kbps, times, states, polls) && i <= |times|
    ensures Valid(states[i]) && states[i].bytesPerSec == RateOf(kbps)
    ensures Out(polls, i) + Held(states[i]) + FramesOf(states[i].inner) == FramesOf(inner)
    decreases i
  {
    hide *;
    RunLengths(inner, kbps, times, states, polls);
    if i == 0 {
      NothingYet(inner, kbps, times, states, polls);
    } else {
      NothingIsLost(inner, kbps, times, states, polls, i - 1);
      RunStep(inner, kbps, times, states, polls, i - 1);
      var s, s' := states[i - 1], states[i];
      NextKeepsFrames(s, times[i - 1]);
      NextKeepsRate(s, times[i - 1]);
      var one := OutMore(polls, i);
      Reassociate(Out(polls, i - 1), Held(s), FramesOf(s.inner), one, Held(s'), FramesOf(s'.inner));
    }
  }

  lemma NothingYet(inner: seq<Answer>, kbps: nat, times: seq<nat>, states: seq<State>, polls: seq<Poll>)
    requires Run(inner, kbps, times, states, polls)
    ensures Valid(states[0]) && states[0].bytesPerSec == RateOf(kbps)
    ensures Out(polls, 0) + Held(states[0]) + FramesOf(states[0].inner) == FramesOf(inner)
  {
    hide Next, RateOf, FramesOf;
    assert [] + [] + FramesOf(inner) == FramesOf(inner);
  }

  lemma OutMore(polls: seq<Poll>, i: nat) returns (one: seq<Frame>)
    requires 0 < i <= |polls|
    ensures one == if polls[i - 1].Ready? then [polls[i - 1].frame] else []
    ensures Out(polls, i) == Out(polls, i - 1) + one
  {
    one := if polls[i - 1].Ready? then [polls[i - 1].frame] else [];
  }

  lemma NextKeepsRate(s: State, now: nat)
    requires Valid(s)
    ensures Next(s, now).0.bytesPerSec == s.bytesPerSec
  {
    hide FrameDelay;
  }

  lemma Reassociate<T>(a: seq<T>, b: seq<T>, c: seq<T>, one: seq<T>, b': seq<T>, c': seq<T>)
    requires b + c == one + b' + c'
    ensures a + b + c == a + one + b' + c'
  {
    assert a + b + c == a + (b + c);
    assert a + one + b' + c' == a + (one + b' + c');
  }

  /** A body that says it has ended has handed out every frame. */
  lemma EndedMeansAllOut(inner: seq<Answer>, kbps: nat, times: seq<nat>, states: seq<State>, polls: seq<Poll>, i: nat,
                         innerIsEnd: bool)
    requires Run(inner, kbps, times, states, polls) && i <= |times|
    requires innerIsEnd ==> FramesOf(states[i].inner) == []
    ensures EndsStream(states[i], innerIsEnd) ==> Out(polls, i) == FramesOf(inner)
  {
    NothingIsLost(inner, kbps, times, states, polls, i);
    hide Run, FramesOf;
    assert Out(polls, i) + [] + [] == Out(polls, i);
  }

  // ---- How long chunks take ----

  function DelayMs(bytesPerSec: nat, chunkLen: nat): nat {
    var delay := DelayForChunk(bytesPerSec, chunkLen);
    if delay.Some? then delay.value else 0
  }

  function TotalDelay(bytesPerSec: nat, lengths: seq<nat>): nat {
    if lengths == [] then 0
    else TotalDelay(bytesPerSec, lengths[..|lengths| - 1]) + DelayMs(bytesPerSec, lengths[|lengths| - 1])
  }

  function TotalBytes(lengths: seq<nat>): nat {
    if lengths == [] then 0 else TotalBytes(lengths[..|lengths| - 1]) + lengths[|lengths| - 1]
  }

  predicate NoSaturation(lengths: seq<nat>) {
    forall i | 0 <= i < |lengths| :: lengths[i] * 1000 <= U64_MAX
  }

  lemma QuotientBounds(a: nat, b: nat)
    requires b > 0
    ensures (a / b) * b <= a < (a / b + 1) * b
  {
  }

  lemma ChunkDelay(bytesPerSec: nat, len: nat)
    requires bytesPerSec > 0
    ensures DelayMs(bytesPerSec, len) * bytesPerSec <= 1000 * len
    ensures len * 1000 <= U64_MAX ==> 1000 * len < (DelayMs(bytesPerSec, len) + 1) * bytesPerSec
  {
    var product := SaturatingMul(len, 1000);
    QuotientBounds(product, bytesPerSec);
    if len == 0 {
      assert 1000 * len == 0 && DelayMs(bytesPerSec, len) == 0;
    } else {
      assert DelayMs(bytesPerSec, len) == product / bytesPerSec;
    }
  }

  lemma Distribute(a: int, b: int, c: int)
    ensures (a + b) * c == a * c + b * c
  {
  }

  /** Chunks never take longer than the rate says, and unless a product saturates they take less than a
      millisecond a chunk too little. */
  lemma {:induction false} TotalDelayBounds(bytesPerSec: nat, lengths: seq<nat>)
    requires bytesPerSec > 0
    ensures TotalDelay(bytesPerSec, lengths) * bytesPerSec <= 1000 * TotalBytes(lengths)
    ensures lengths != [] && NoSaturation(lengths) ==>
              1000 * TotalBytes(lengths) < (TotalDelay(bytesPerSec, lengths) + |lengths|) * bytesPerSec
  {
    if lengths != [] {
      var n := |lengths| - 1;
      var front, last := lengths[..n], lengths[n];
      TotalDelayBounds(bytesPerSec, front);
      ChunkDelay(bytesPerSec, last);
      var t, d := TotalDelay(bytesPerSec, front), DelayMs(bytesPerSec, last);
      hide DelayMs;
      assert TotalDelay(bytesPerSec, lengths) == t + d && TotalBytes(lengths) == TotalBytes(front) + last;
      Distribute(t, d, bytesPerSec);
      if NoSaturation(lengths) {
        assert NoSaturation(front) && last * 1000 <= U64_MAX;
        Distribute(t + n, d + 1, bytesPerSec);
        assert (t + d) + (n + 1) == (t + n) + (d + 1);
        assert front == [] ==> TotalBytes(front) == 0 && t == 0 && n == 0;
        assert (0 + 0) * bytesPerSec == 0;
      }
    }
  }

  /** In the units of the setting: T milliseconds at `kbps` kilobits a second carry 8L bits. */
  lemma TotalDelayInBits(kbps: nat, lengths: seq<nat>)
    requires kbps > 0 && kbps * 1000 <= U64_MAX
    ensures RateOf(kbps) == 125 * kbps
    ensures TotalDelay(RateOf(kbps), lengths) * kbps <= 8 * TotalBytes(lengths)
    ensures lengths != [] && NoSaturation(lengths) ==>
              8 * TotalBytes(lengths) < (TotalDelay(RateOf(kbps), lengths) + |lengths|) * kbps
  {
    assert kbps * 1000 == 8 * (125 * kbps);
    var rate, t, bytes := RateOf(kbps), TotalDelay(RateOf(kbps), lengths), TotalBytes(lengths);
    assert rate == 125 * kbps;
    TotalDelayBounds(rate, lengths);
    hide TotalDelay, TotalBytes, NoSaturation, RateOf;
    ScaledBound(t, kbps, bytes);
    ScaledBound(t + |lengths|, kbps, bytes);
  }

  lemma ScaledBound(t: nat, kbps: nat, bytes: nat)
    ensures t * (125 * kbps) <= 1000 * bytes <==> t * kbps <= 8 * bytes
    ensures 1000 * bytes < t * (125 * kbps) <==> 8 * bytes < t * kbps
  {
    assert t * (125 * kbps) == 125 * (t * kbps);
  }

  // ---- How fast frames come out ----

  function Lengths(frames: seq<Frame>): seq<nat> {
    if frames == [] then []
    else
      var last := frames[|frames| - 1];
      Lengths(frames[..|frames| - 1]) + if last.Data? then [|last.data|] else []
  }

  predicate Ordered(times: seq<nat>) {
    forall i, j | 0 <= i <= j < |times| :: times[i] <= times[j]
  }

  function Spent(bytesPerSec: nat, frames: seq<Frame>): nat {
    TotalDelay(bytesPerSec, Lengths(frames))
  }

  lemma SpentMore(bytesPerSec: nat, frames: seq<Frame>, frame: Frame)
    ensures Spent(bytesPerSec, frames + [frame]) ==
            Spent(bytesPerSec, frames)
            + if FrameDelay(bytesPerSec, frame).Some? then FrameDelay(bytesPerSec, frame).value else 0
  {
    hide DelayForChunk;
    assert (frames + [frame])[..|frames + [frame]| - 1] == frames;
    var lengths := Lengths(frames);
    if frame.Data? {
      var more := lengths + [|frame.data|];
      assert more[..|more| - 1] == lengths;
    } else {
      assert lengths + [] == lengths;
    }
  }

  /** Since the first poll there was time for everything handed out, and the frame held back is due no
      sooner than there will have been time for it too. */
  predicate OnTime(s: State, out: seq<Frame>, from: nat, now: nat) {
    && from + Spent(s.bytesPerSec, out) <= now
    && (s.delay.Some? && s.pending.Some? ==>
          && FrameDelay(s.bytesPerSec, s.pending.value).Some?
          && from + Spent(s.bytesPerSec, out) + FrameDelay(s.bytesPerSec, s.pending.value).value <= s.delay.value)
  }

  lemma NextIsOnTime(s: State, out: seq<Frame>, from: nat, before: nat, now: nat)
    requires Valid(s) && OnTime(s, out, from, before) && before <= now
    ensures var (s', poll) := Next(s, now);
            OnTime(s', if poll.Ready? then out + [poll.frame] else out, from, now)
  {
    hide Spent, FrameDelay;
    var (s', poll) := Next(s, now);
    if poll.Ready? {
      SpentMore(s.bytesPerSec, out, poll.frame);
    }
  }

  lemma {:induction false} RunIsOnTime(inner: seq<Answer>, kbps: nat, times: seq<nat>, states: seq<State>,
                                       polls: seq<Poll>, i: nat)
    requires Run(inner, kbps, times, states, polls) && Ordered(times) && 0 < i <= |times|
    ensures OnTime(states[i], Out(polls, i), times[0], times[i - 1])
    decreases i
  {
    hide Next, OnTime, Start;
    RunStep(inner, kbps, times, states, polls, i - 1);
    var one := if polls[i - 1].Ready? then [polls[i - 1].frame] else [];
    assert Out(polls, i - 1) + [] == Out(polls, i - 1);
    if i == 1 {
      StartIsOnTime(inner, kbps, times[0]);
      NextIsOnTime(states[0], [], times[0], times[0], times[0]);
    } else {
      RunIsOnTime(inner, kbps, times, states, polls, i - 1);
      NextIsOnTime(states[i - 1], Out(polls, i - 1), times[0], times[i - 2], times[i - 1]);
    }
  }

  lemma StartIsOnTime(inner: seq<Answer>, kbps: nat, now: nat)
    ensures OnTime(Start(inner, kbps), [], now, now)
  {
    hide RateOf;
  }

  /** By any moment, what was handed out since the first poll is less than the rate allows, up to one
      millisecond's worth a chunk: 8L < (elapsed + n) * kbps. */
  lemma RateIsKept(inner: seq<Answer>, kbps: nat, times: seq<nat>, states: seq<State>, polls: seq<Poll>, i: nat)
    requires Run(inner, kbps, times, states, polls) && Ordered(times) && 0 < i <= |times|
    requires kbps > 0 && kbps * 1000 <= U64_MAX
    requires Lengths(Out(polls, i)) != [] && NoSaturation(Lengths(Out(polls, i)))
    ensures var lengths := Lengths(Out(polls, i));
            8 * TotalBytes(lengths) < (times[i - 1] - times[0] + |lengths|) * kbps
  {
    hide *;
    RunLengths(inner, kbps, times, states, polls);
    RunIsOnTime(inner, kbps, times, states, polls, i);
    NothingIsLost(inner, kbps, times, states, polls, i);
    var lengths := Lengths(Out(polls, i));
    OnTimeSays(states[i], Out(polls, i), times[0], times[i - 1]);
    TotalDelayInBits(kbps, lengths);
    Monotone(TotalDelay(RateOf(kbps), lengths) + |lengths|, times[i - 1] - times[0] + |lengths|, kbps);
  }

  lemma RunLengths(inner: seq<Answer>, kbps: nat, times: seq<nat>, states: seq<State>, polls: seq<Poll>)
    requires Run(inner, kbps, times, states, polls)
    ensures |states| == |times| + 1 && |polls| == |times|
  {
    hide Next, Valid, Start;
  }

  lemma OnTimeSays(s: State, out: seq<Frame>, from: nat, now: nat)
    requires OnTime(s, out, from, now)
    ensures from + TotalDelay(s.bytesPerSec, Lengths(out)) <= now
  {
    hide TotalDelay, Lengths, FrameDelay;
  }

  lemma Monotone(a: int, b: int, c: nat)
    requires a <= b
    ensures a * c <= b * c
  {
  }

  // ---- When a frame comes out ----

  function Capped(n: nat): nat {
    if n < 0x1_0000_0000_0000_0000 then n else 0xffff_ffff_ffff_ffff
  }

  /** The milliseconds that a chunk takes at a rate in bytes a second. */
  function Duration(bytesPerSec: nat, chunk: Bytes): nat {
    if bytesPerSec == 0 then 0 else Capped(|chunk| * 1000) / bytesPerSec
  }

  /** The same at a rate in kilobits a second; none at all for zero. */
  function DurationAt(kbps: nat, chunk: Bytes): nat {
    Duration(Capped(kbps * 1000) / 8, chunk)
  }

  /** Nothing is held back at the poll: it answers from the wrapped body. */
  predicate Takes(s: State, frame: Frame) {
    s.pending.None? && s.inner != [] && s.inner[0] == Yields(frame)
  }

  predicate IsHeld(kbps: nat, frame: Frame) {
    frame.Data? && DurationAt(kbps, frame.data) > 0
  }

  lemma DelayIs(kbps: nat, frame: Frame)
    ensures FrameDelay(RateOf(kbps), frame) ==
            if IsHeld(kbps, frame) then Some(DurationAt(kbps, frame.data)) else None
  {
    RateIs(kbps);
    if frame.Data? && frame.data == [] {
      NoTime(Capped(kbps * 1000) / 8);
    }
    hide RateOf;
  }

  lemma RateIs(kbps: nat)
    ensures RateOf(kbps) == Capped(kbps * 1000) / 8
  {
  }

  lemma NoTime(bytesPerSec: nat)
    ensures Duration(bytesPerSec, []) == 0
  {
  }

  lemma {:induction false} RateStays(inner: seq<Answer>, kbps: nat, times: seq<nat>, states: seq<State>,
                                     polls: seq<Poll>, i: nat)
    requires Run(inner, kbps, times, states, polls) && i <= |times|
    ensures |states| == |times| + 1 && |polls| == |times| && states[i].bytesPerSec == RateOf(kbps)
    decreases i
  {
    NothingIsLost(inner, kbps, times, states, polls, i);
    hide Next, Valid;
  }

  /** A frame that takes no time is handed out by the poll that takes it. */
  lemma ShortFrameIsOutAtOnce(inner: seq<Answer>, kbps: nat, times: seq<nat>, states: seq<State>, polls: seq<Poll>,
                              i: nat, frame: Frame)
    requires Run(inner, kbps, times, states, polls) && i < |times| && |states| == |times| + 1 && |polls| == |times|
    requires Takes(states[i], frame) && !IsHeld(kbps, frame)
    ensures polls[i] == Ready(frame)
  {
    RateStays(inner, kbps, times, states, polls, i);
    RunStep(inner, kbps, times, states, polls, i);
    DelayIs(kbps, frame);
    hide FrameDelay, RateOf, Run, IsHeld;
  }

  /** Any other is due exactly its time after the poll that takes it: no poll before that hands out anything, and
      the first one from then on hands it out. */
  lemma {:induction false} HeldUntilDue(inner: seq<Answer>, kbps: nat, times: seq<nat>, states: seq<State>,
                                        polls: seq<Poll>, i: nat, j: nat, frame: Frame)
    requires Run(inner, kbps, times, states, polls) && i < j <= |times| && |states| == |times| + 1
    requires |polls| == |times| && Takes(states[i], frame) && IsHeld(kbps, frame)
    requires forall k | i < k < j :: times[k] < times[i] + DurationAt(kbps, frame.data)
    ensures states[j].pending == Some(frame) && states[j].delay == Some(times[i] + DurationAt(kbps, frame.data))
    ensures polls[j - 1] == Pending
    ensures j < |times| && times[j] >= times[i] + DurationAt(kbps, frame.data) ==> polls[j] == Ready(frame)
    decreases j
  {
    RateStays(inner, kbps, times, states, polls, i);
    RunStep(inner, kbps, times, states, polls, i);
    DelayIs(kbps, frame);
    hide FrameDelay, RateOf, IsHeld, DurationAt;
    if j > i + 1 {
      HeldUntilDue(inner, kbps, times, states, polls, i, j - 1, frame);
      RunStep(inner, kbps, times, states, polls, j - 1);
    }
    if j < |times| {
      RunStep(inner, kbps, times, states, polls, j);
    }
    hide Run;
  }

  /** Whatever else the wrapped body answers is passed on, and after its last answer the end. */
  lemma OthersPassThrough(inner: seq<Answer>, kbps: nat, times: seq<nat>, states: seq<State>, polls: seq<Poll>, i: nat)
    requires Run(inner, kbps, times, states, polls) && i < |times| && |states| == |times| + 1 && |polls| == |times|
    requires states[i].pending.None?
    ensures states[i].inner == [] ==> polls[i] == End
    ensures states[i].inner != [] && states[i].inner[0] == NotReady ==> polls[i] == Pending
    ensures states[i].inner != [] && states[i].inner[0].Fails? ==> polls[i] == Error(states[i].inner[0].message)
  {
    RunStep(inner, kbps, times, states, polls, i);
    hide FrameDelay, Run;
  }
}
