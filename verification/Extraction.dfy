/** Mixed extraction: cursors into two ring buffers at two sample rates, trimmed to a common duration
    with the surplus given back. Samples are opaque, resampling and mixing are foreign; time is exact
    rational arithmetic in place of 64-bit floats. */
module Extraction {
  import opened Wrappers
  import RingBuffer

  datatype Mode = MicOnly | SystemOnly | Mixed

  datatype Positions = Positions(mic: nat, system: nat)

  /** The cursors `[start, end)` a snapshot delivered, of interleaved samples. */
  datatype Window = Window(start: nat, end: nat, rate: nat, channels: nat) {
    predicate Valid() { start <= end && rate > 0 && channels > 0 }
  }

  /** How many frames of each source go into the output, at which rate, and the next cursors. */
  datatype Cut = Cut(micFrames: nat, systemFrames: nat, rate: nat, next: Positions)

  /** Mono frames; an incomplete last frame is not one. */
  function Frames(w: Window): nat
    requires w.Valid()
  {
    (w.end - w.start) / w.channels
  }

  function FramesOf(w: Option<Window>): nat
    requires w.Some? ==> w.value.Valid()
  {
    if w.Some? then Frames(w.value) else 0
  }

  function Time(frames: nat, rate: nat): real
    requires rate > 0
  {
    frames as real / rate as real
  }

  function Least(a: nat, b: nat): nat { if a < b then a else b }

  /** Frames that fit into a duration, at most those there are. */
  function Fit(time: real, rate: nat, frames: nat): (k: nat)
    ensures k <= frames
  {
    var whole := (time * rate as real).Floor;
    if whole < 0 then 0 else Least(whole, frames)
  }

  /** Both trimmed to the shorter duration, each at its own rate. */
  function Trim(m: nat, micRate: nat, s: nat, sysRate: nat): (keep: (nat, nat))
    requires micRate > 0 && sysRate > 0
    ensures keep.0 <= m && keep.1 <= s
  {
    if micRate != sysRate || m != s then
      var micTime, sysTime := Time(m, micRate), Time(s, sysRate);
      var minTime := if micTime < sysTime then micTime else sysTime;
      (Fit(minTime, micRate, m), Fit(minTime, sysRate, s))
    else (m, s)
  }

  /** The cursor with `surplus` frames given back, by a saturating subtraction. */
  function GiveBack(end: nat, surplus: nat, channels: nat): nat {
    var samples := surplus * channels;
    if end < samples then 0 else end - samples
  }

  function NextCursor(w: Option<Window>, position: nat): nat {
    if w.Some? then w.value.end else position
  }

  /** Whether the output could be mixed, given whether resampling worked, and how much of the system
      source is in it: when resampling fails the output is the mic's alone. */
  function Mix(mic: Option<Window>, system: Option<Window>, m: nat, s: nat, resampled: bool): Option<(nat, nat)> {
    var needs := mic.Some? && system.Some? && mic.value.rate != system.value.rate && s > 0;
    if needs && !resampled then (if m == 0 then None else Some((m, 0))) else Some((m, s))
  }

  function Extract(mode: Mode, mic: Option<Window>, system: Option<Window>, positions: Positions, resampled: bool)
    : Option<Cut>
    requires (mic.Some? ==> mic.value.Valid()) && (system.Some? ==> system.value.Valid())
  {
    var m, s := FramesOf(mic), FramesOf(system);
    var next := Positions(NextCursor(mic, positions.mic), NextCursor(system, positions.system));
    match mode
    case MicOnly => if m == 0 then None else Some(Cut(m, 0, mic.value.rate, next))
    case SystemOnly => if s == 0 then None else Some(Cut(0, s, system.value.rate, next))
    case Mixed =>
      if m == 0 && s == 0 then None
      else
        var rate := if mic.Some? then mic.value.rate else system.value.rate;
        if m > 0 && s > 0 then
          var keep := Trim(m, mic.value.rate, s, system.value.rate);
          var back := Positions(
            GiveBack(next.mic, m - keep.0, mic.value.channels),
            GiveBack(next.system, s - keep.1, system.value.channels));
          match Mix(mic, system, keep.0, keep.1, resampled)
          case None => None
          case Some(out) => Some(Cut(out.0, out.1, rate, back))
        else
          match Mix(mic, system, m, s, resampled)
          case None => None
          case Some(out) => Some(Cut(out.0, out.1, rate, next))
  }

  // ---- Trimming -------------------------------------------------------------------------------------

  lemma RealTimes(x: real, y: real, c: real)
    requires c > 0.0
    ensures x < y <==> x * c < y * c
  {
    assert (y - x) * c == y * c - x * c;
    if x < y { assert (y - x) * c > 0.0; }
    if x > y { assert (x - y) * c > 0.0; assert (x - y) * c == x * c - y * c; }
  }

  lemma FloorOfQuotient(a: nat, b: nat, x: real)
    requires b > 0 && x * b as real == a as real
    ensures x.Floor == a / b
  {
    var q := a / b;
    assert q * b <= a < (q + 1) * b by { assert a == q * b + a % b; }
    assert (q * b) as real == q as real * b as real;
    assert ((q + 1) * b) as real == (q + 1) as real * b as real;
    RealTimes(x, q as real, b as real);
    RealTimes(x, (q + 1) as real, b as real);
    assert q as real <= x < (q + 1) as real;
  }

  lemma TimeIs(frames: nat, rate: nat)
    requires rate > 0
    ensures Time(frames, rate) * rate as real == frames as real
  {
  }

  lemma TimeOrder(m: nat, micRate: nat, s: nat, sysRate: nat)
    requires micRate > 0 && sysRate > 0
    ensures Time(m, micRate) < Time(s, sysRate) <==> m * sysRate < s * micRate
  {
    var x, y := Time(m, micRate), Time(s, sysRate);
    var a, b := micRate as real, sysRate as real;
    TimeIs(m, micRate);
    TimeIs(s, sysRate);
    RealTimes(x, y, a);
    RealTimes(x * a, y * a, b);
    assert (x * a) * b == (m * sysRate) as real;
    assert (y * a) * b == (y * b) * a == (s * micRate) as real;
  }

  lemma Scale(t: real, r: real, f: real, o: real)
    requires t * r == f
    ensures (t * o) * r == f * o
  {
    assert (t * o) * r == (t * r) * o;
  }

  lemma FitIs(frames: nat, rate: nat, otherRate: nat, others: nat)
    requires rate > 0 && otherRate > 0
    ensures Fit(Time(frames, rate), rate, frames) == frames
    ensures Fit(Time(frames, rate), otherRate, others) == Least(frames * otherRate / rate, others)
  {
    hide Time;
    var t := Time(frames, rate);
    TimeIs(frames, rate);
    var x := t * otherRate as real;
    Scale(t, rate as real, frames as real, otherRate as real);
    assert frames as real * otherRate as real == (frames * otherRate) as real;
    FloorOfQuotient(frames * otherRate, rate, x);
    NonNegativeQuotient(frames * otherRate, rate);
  }

  lemma NonNegativeQuotient(a: nat, b: nat)
    requires b > 0
    ensures a / b >= 0
  {
  }

  lemma QuotientAtMost(a: nat, b: nat, n: nat)
    requires b > 0 && a <= n * b
    ensures a / b <= n
  {
    if a / b > n {
      assert false;
    }
  }

  /** The exact quotients behind the times: the source with the shorter duration keeps everything, the
      other one the whole frames that fit. */
  lemma TrimExact(m: nat, micRate: nat, s: nat, sysRate: nat)
    requires micRate > 0 && sysRate > 0
    ensures var keep := Trim(m, micRate, s, sysRate);
            if m * sysRate < s * micRate then keep == (m, m * sysRate / micRate)
            else keep == (s * micRate / sysRate, s)
  {
    hide Fit, Time;
    TimeOrder(m, micRate, s, sysRate);
    FitIs(m, micRate, sysRate, s);
    FitIs(s, sysRate, micRate, m);
    if m * sysRate < s * micRate {
      QuotientAtMost(m * sysRate, micRate, s);
    } else {
      QuotientAtMost(s * micRate, sysRate, m);
      if micRate == sysRate && m == s {
        QuotientOfProduct(m, micRate);
      }
    }
  }

  lemma QuotientOfProduct(n: nat, b: nat)
    requires b > 0
    ensures n * b / b == n
  {
    RingBuffer.Divided(n * b, b, n, 0);
  }

  /** How far apart, in units of one over both rates, the two kept durations are: less than one frame
      of the source that was cut. */
  lemma TrimDrift(m: nat, micRate: nat, s: nat, sysRate: nat)
    requires micRate > 0 && sysRate > 0
    ensures var keep := Trim(m, micRate, s, sysRate);
            0 - sysRate < keep.0 * sysRate - keep.1 * micRate < micRate
  {
    hide Trim;
    TrimExact(m, micRate, s, sysRate);
    if m * sysRate < s * micRate {
      Remainder(m * sysRate, micRate);
    } else {
      Remainder(s * micRate, sysRate);
    }
  }

  lemma Remainder(a: nat, b: nat)
    requires b > 0
    ensures 0 <= a - (a / b) * b < b
  {
    assert a == (a / b) * b + a % b;
  }

  // ---- Cursors ----------------------------------------------------------------------------------------

  lemma FramesBound(w: Window)
    requires w.Valid()
    ensures Frames(w) * w.channels <= w.end - w.start
    ensures (w.end - w.start) % w.channels == 0 ==> Frames(w) * w.channels == w.end - w.start
  {
    Remainder(w.end - w.start, w.channels);
    assert w.end - w.start == Frames(w) * w.channels + (w.end - w.start) % w.channels;
  }

  /** Giving frames back never saturates, stays within what was read, and from a window of whole frames
      leaves exactly the frames that were kept. */
  lemma GiveBackIsExact(w: Window, keep: nat)
    requires w.Valid() && keep <= Frames(w)
    ensures (Frames(w) - keep) * w.channels <= w.end
    ensures var cursor := GiveBack(w.end, Frames(w) - keep, w.channels);
            && w.start + keep * w.channels <= cursor <= w.end
            && ((w.end - w.start) % w.channels == 0 ==> cursor == w.start + keep * w.channels)
  {
    FramesBound(w);
    assert (Frames(w) - keep) * w.channels == Frames(w) * w.channels - keep * w.channels;
  }

  // ---- The samples of the output -----------------------------------------------------------------------

  /** The raw samples of the frames in the output, before averaging, resampling and mixing. */
  datatype Output = Output(
    mic: seq<RingBuffer.Sample>, system: seq<RingBuffer.Sample>, rate: nat, next: Positions, overrun: bool)

  /** What a snapshot of a source delivered; nothing for a source that is not there. */
  datatype Pull = Pull(window: Option<Window>, samples: seq<RingBuffer.Sample>, overrun: bool) {
    predicate Valid() {
      if window.Some? then window.value.Valid() && |samples| == window.value.end - window.value.start
      else samples == []
    }
  }

  /** The samples of the first `frames` frames. */
  function Head(p: Pull, frames: nat): seq<RingBuffer.Sample> {
    if p.window.Some? && frames * p.window.value.channels <= |p.samples|
    then p.samples[..frames * p.window.value.channels] else []
  }

  function Assembled(mode: Mode, mic: Pull, system: Pull, positions: Positions, resampled: bool): Option<Output>
    requires mic.Valid() && system.Valid()
  {
    match Extract(mode, mic.window, system.window, positions, resampled)
    case None => None
    case Some(cut) =>
      Some(Output(Head(mic, cut.micFrames), Head(system, cut.systemFrames), cut.rate, cut.next,
                  mic.overrun || system.overrun))
  }

  /** `out` is the log from one cursor to another. */
  ghost predicate Carries(log: seq<RingBuffer.Sample>, from: nat, to: nat, out: seq<RingBuffer.Sample>) {
    from <= to && if from == to then out == [] else to <= |log| && out == log[from..to]
  }

  /** The pull of whole frames of a log from a cursor on. */
  ghost predicate PullsFrom(p: Pull, log: seq<RingBuffer.Sample>, position: nat) {
    && p.Valid()
    && (p.window.Some? ==>
          && p.window.value.start == position && Carries(log, position, p.window.value.end, p.samples)
          && (p.window.value.end - position) % p.window.value.channels == 0)
  }

  lemma HeadCarries(p: Pull, log: seq<RingBuffer.Sample>, position: nat, keep: nat)
    requires PullsFrom(p, log, position) && keep <= FramesOf(p.window)
    ensures p.window.None? ==> Head(p, keep) == [] && keep == 0
    ensures p.window.Some? ==>
              var w := p.window.value;
              && Carries(log, position, position + keep * w.channels, Head(p, keep))
              && GiveBack(w.end, Frames(w) - keep, w.channels) == position + keep * w.channels <= w.end
              && (keep == Frames(w) <==> position + keep * w.channels == w.end)
  {
    if p.window.Some? {
      var w := p.window.value;
      FramesBound(w);
      GiveBackIsExact(w, keep);
      SameFrames(keep, Frames(w), w.channels);
    }
  }

  lemma SameFrames(a: nat, b: nat, channels: nat)
    requires channels > 0 && a <= b
    ensures a * channels <= b * channels && (a * channels == b * channels <==> a == b)
  {
    assert b * channels == a * channels + (b - a) * channels;
    if b > a { RingBuffer.TimesAtLeast(b - a, channels); }
  }

  /** Both sources are there, at different rates, and resampling failed: the output is the mic's alone. */
  predicate MicAlone(mic: Pull, system: Pull, resampled: bool) {
    mic.window.Some? && system.window.Some? && mic.window.value.rate != system.window.value.rate && !resampled
  }

  /** What a call takes from two logs: the pieces in its output reach from the cursors it was given to the
      cursors it hands back. `ends` is as far as it could read; `fails` says that it has to do without the
      system source. */
  ghost predicate Takes(
    mode: Mode, r: Option<Output>, micLog: seq<RingBuffer.Sample>, systemLog: seq<RingBuffer.Sample>,
    positions: Positions, ends: Positions, fails: bool)
  {
    match r
    case None =>
      (match mode
       case MicOnly => ends.mic == positions.mic
       case SystemOnly => ends.system == positions.system
       case Mixed => ends == positions || fails)
    case Some(out) =>
      match mode
      case MicOnly =>
        && positions.mic < ends.mic && out.next == ends && out.system == []
        && Carries(micLog, positions.mic, ends.mic, out.mic)
      case SystemOnly =>
        && positions.system < ends.system && out.next == ends && out.mic == []
        && Carries(systemLog, positions.system, ends.system, out.system)
      case Mixed =>
        && ends != positions && out.next.mic <= ends.mic && positions.system <= out.next.system <= ends.system
        && (out.next.mic == ends.mic || out.next.system == ends.system)
        && Carries(micLog, positions.mic, out.next.mic, out.mic)
        && if fails then out.system == [] else Carries(systemLog, positions.system, out.next.system, out.system)
  }

  lemma AssembledRate(mode: Mode, mic: Pull, system: Pull, positions: Positions, resampled: bool)
    requires mic.Valid() && system.Valid()
    ensures var r := Assembled(mode, mic, system, positions, resampled);
            r.Some? ==>
              && r.value.overrun == (mic.overrun || system.overrun)
              && if mode == MicOnly || (mode == Mixed && mic.window.Some?)
                 then mic.window.Some? && r.value.rate == mic.window.value.rate
                 else system.window.Some? && r.value.rate == system.window.value.rate
  {
    hide Trim, Head;
  }

  function Ends(mic: Pull, system: Pull, positions: Positions): Positions {
    Positions(NextCursor(mic.window, positions.mic), NextCursor(system.window, positions.system))
  }

  lemma MixedTakes(mic: Pull, system: Pull, positions: Positions, resampled: bool,
                   micLog: seq<RingBuffer.Sample>, systemLog: seq<RingBuffer.Sample>)
    requires PullsFrom(mic, micLog, positions.mic) && PullsFrom(system, systemLog, positions.system)
    ensures Takes(Mixed, Assembled(Mixed, mic, system, positions, resampled), micLog, systemLog, positions,
                  Ends(mic, system, positions), MicAlone(mic, system, resampled))
  {
    var m, s := FramesOf(mic.window), FramesOf(system.window);
    hide Trim, Head, Carries, Frames;
    HeadCarries(mic, micLog, positions.mic, 0);
    HeadCarries(system, systemLog, positions.system, 0);
    HeadCarries(mic, micLog, positions.mic, m);
    HeadCarries(system, systemLog, positions.system, s);
    if m > 0 && s > 0 {
      var mw, sw := mic.window.value, system.window.value;
      TrimExact(m, mw.rate, s, sw.rate);
      var keep := Trim(m, mw.rate, s, sw.rate);
      HeadCarries(mic, micLog, positions.mic, keep.0);
      HeadCarries(system, systemLog, positions.system, keep.1);
    }
  }

  lemma OneSideTakes(mode: Mode, mic: Pull, system: Pull, positions: Positions, resampled: bool,
                     micLog: seq<RingBuffer.Sample>, systemLog: seq<RingBuffer.Sample>)
    requires mode != Mixed
    requires PullsFrom(mic, micLog, positions.mic) && PullsFrom(system, systemLog, positions.system)
    ensures Takes(mode, Assembled(mode, mic, system, positions, resampled), micLog, systemLog, positions,
                  Ends(mic, system, positions), MicAlone(mic, system, resampled))
  {
    hide Head, Carries, Frames, Trim;
    HeadCarries(mic, micLog, positions.mic, 0);
    HeadCarries(system, systemLog, positions.system, 0);
    HeadCarries(mic, micLog, positions.mic, FramesOf(mic.window));
    HeadCarries(system, systemLog, positions.system, FramesOf(system.window));
  }

  /** Two sources without an overrun: the windows start at the cursors. */
  datatype Setup = Setup(micRate: nat, micChannels: nat, systemRate: nat, systemChannels: nat)

  /** One mixed call: where the snapshots ended, and whether resampling worked. */
  datatype Call = Call(micEnd: nat, systemEnd: nat, resampled: bool)

  predicate Proper(x: Setup) {
    x.micRate > 0 && x.micChannels > 0 && x.systemRate > 0 && x.systemChannels > 0
  }

  /** Both ends are whole frames past the cursors. */
  predicate Ready(x: Setup, p: Positions, c: Call) {
    && Proper(x)
    && p.mic <= c.micEnd && (c.micEnd - p.mic) % x.micChannels == 0
    && p.system <= c.systemEnd && (c.systemEnd - p.system) % x.systemChannels == 0
  }

  function MicWindow(x: Setup, p: Positions, c: Call): Window { Window(p.mic, c.micEnd, x.micRate, x.micChannels) }

  function SystemWindow(x: Setup, p: Positions, c: Call): Window {
    Window(p.system, c.systemEnd, x.systemRate, x.systemChannels)
  }

  function CutOf(x: Setup, p: Positions, c: Call): Option<Cut>
    requires Ready(x, p, c)
  {
    Extract(Mixed, Some(MicWindow(x, p, c)), Some(SystemWindow(x, p, c)), p, c.resampled)
  }

  function Step(x: Setup, p: Positions, c: Call): Positions
    requires Ready(x, p, c)
  {
    match CutOf(x, p, c) case None => p case Some(cut) => cut.next
  }

  /** Frames of each source that a call moves its cursor over. */
  function Consumed(x: Setup, p: Positions, c: Call): (nat, nat)
    requires Ready(x, p, c)
  {
    var m, s := Frames(MicWindow(x, p, c)), Frames(SystemWindow(x, p, c));
    if CutOf(x, p, c) == None then (0, 0)
    else if m > 0 && s > 0 then Trim(m, x.micRate, s, x.systemRate)
    else (m, s)
  }

  /** A call moves each cursor over exactly the frames it consumed, not past what it read; those of the
      mic are all in its output, those of the system as well unless resampling failed. */
  lemma StepConsumes(x: Setup, p: Positions, c: Call)
    requires Ready(x, p, c)
    ensures var q, k := Step(x, p, c), Consumed(x, p, c);
            && q.mic == p.mic + k.0 * x.micChannels <= c.micEnd
            && q.system == p.system + k.1 * x.systemChannels <= c.systemEnd
            && match CutOf(x, p, c)
               case None => k == (0, 0)
               case Some(cut) => cut.micFrames == k.0 && (c.resampled ==> cut.systemFrames == k.1)
  {
    hide Trim;
    var mw, sw := MicWindow(x, p, c), SystemWindow(x, p, c);
    FramesBound(mw);
    FramesBound(sw);
    var keep := Trim(Frames(mw), x.micRate, Frames(sw), x.systemRate);
    GiveBackIsExact(mw, keep.0);
    GiveBackIsExact(sw, keep.1);
  }

  /** A call with both sources present moves the two cursors by durations less than one frame apart. */
  lemma StepDrift(x: Setup, p: Positions, c: Call)
    requires Ready(x, p, c) && Frames(MicWindow(x, p, c)) > 0 && Frames(SystemWindow(x, p, c)) > 0
    ensures var k := Consumed(x, p, c);
            0 - x.systemRate < k.0 * x.systemRate - k.1 * x.micRate < x.micRate
  {
    hide Trim, Extract;
    TrimDrift(Frames(MicWindow(x, p, c)), x.micRate, Frames(SystemWindow(x, p, c)), x.systemRate);
  }

  lemma AnyTakes(mode: Mode, mic: Pull, system: Pull, positions: Positions, resampled: bool,
                 micLog: seq<RingBuffer.Sample>, systemLog: seq<RingBuffer.Sample>)
    requires PullsFrom(mic, micLog, positions.mic) && PullsFrom(system, systemLog, positions.system)
    ensures Takes(mode, Assembled(mode, mic, system, positions, resampled), micLog, systemLog, positions,
                  Ends(mic, system, positions), MicAlone(mic, system, resampled))
  {
    if mode == Mixed {
      MixedTakes(mic, system, positions, resampled, micLog, systemLog);
    } else {
      OneSideTakes(mode, mic, system, positions, resampled, micLog, systemLog);
    }
  }

  /** Calls that are chained by their cursors take adjacent pieces: however the log grows in between, what
      they took, put together, is the log from the first cursor to the last. */
  lemma {:induction false} ChainedPiecesJoin(
    logs: seq<seq<RingBuffer.Sample>>, cursors: seq<nat>, outs: seq<seq<RingBuffer.Sample>>,
    log: seq<RingBuffer.Sample>)
    requires |cursors| == |outs| + 1 && |logs| == |outs|
    requires forall i :: 0 <= i < |outs| ==> logs[i] <= log && Carries(logs[i], cursors[i], cursors[i + 1], outs[i])
    ensures Carries(log, cursors[0], cursors[|outs|], Together(outs))
    decreases |outs|
  {
    if outs != [] {
      var n := |outs| - 1;
      ChainedPiecesJoin(logs[..n], cursors[..n + 1], outs[..n], log);
      assert Carries(logs[n], cursors[n], cursors[n + 1], outs[n]);
      assert outs[n] == [] || outs[n] == log[cursors[n]..cursors[n + 1]];
    }
  }

  ghost function Together<T>(pieces: seq<seq<T>>): seq<T> {
    if pieces == [] then [] else Together(pieces[..|pieces| - 1]) + pieces[|pieces| - 1]
  }

  // ---- Runs -------------------------------------------------------------------------------------------

  predicate CanRun(x: Setup, p: Positions, calls: seq<Call>)
    decreases |calls|
  {
    Proper(x) && (calls == [] || (Ready(x, p, calls[0]) && CanRun(x, Step(x, p, calls[0]), calls[1..])))
  }

  function Run(x: Setup, p: Positions, calls: seq<Call>): Positions
    requires CanRun(x, p, calls)
    decreases |calls|
  {
    if calls == [] then p else Run(x, Step(x, p, calls[0]), calls[1..])
  }

  /** All that was written to the two buffers. */
  datatype Logs = Logs(mic: seq<RingBuffer.Sample>, system: seq<RingBuffer.Sample>)

  predicate Written(logs: Logs, c: Call) { c.micEnd <= |logs.mic| && c.systemEnd <= |logs.system| }

  /** The output of one call, from what its snapshots pulled. */
  function OutputOf(x: Setup, p: Positions, c: Call, logs: Logs): Option<Output>
    requires Ready(x, p, c) && Written(logs, c)
  {
    Assembled(Mixed, Pull(Some(MicWindow(x, p, c)), logs.mic[p.mic..c.micEnd], false),
              Pull(Some(SystemWindow(x, p, c)), logs.system[p.system..c.systemEnd], false), p, c.resampled)
  }

  /** The mic samples of the outputs, in order. */
  function MicOut(x: Setup, p: Positions, calls: seq<Call>, logs: Logs): seq<RingBuffer.Sample>
    requires CanRun(x, p, calls) && forall c :: c in calls ==> Written(logs, c)
    decreases |calls|
  {
    if calls == [] then []
    else
      (match OutputOf(x, p, calls[0], logs) case None => [] case Some(out) => out.mic)
      + MicOut(x, Step(x, p, calls[0]), calls[1..], logs)
  }

  function SystemOut(x: Setup, p: Positions, calls: seq<Call>, logs: Logs): seq<RingBuffer.Sample>
    requires CanRun(x, p, calls) && forall c :: c in calls ==> Written(logs, c)
    decreases |calls|
  {
    if calls == [] then []
    else
      (match OutputOf(x, p, calls[0], logs) case None => [] case Some(out) => out.system)
      + SystemOut(x, Step(x, p, calls[0]), calls[1..], logs)
  }

  /** No cursor moves past what the calls were allowed to read. */
  lemma {:induction false} StaysWithin(x: Setup, p: Positions, calls: seq<Call>, limits: Positions)
    requires CanRun(x, p, calls) && p.mic <= limits.mic && p.system <= limits.system
    requires forall c :: c in calls ==> c.micEnd <= limits.mic && c.systemEnd <= limits.system
    ensures var q := Run(x, p, calls); p.mic <= q.mic <= limits.mic && p.system <= q.system <= limits.system
    decreases |calls|
  {
    hide Extract;
    if calls != [] {
      StepConsumes(x, p, calls[0]);
      StaysWithin(x, Step(x, p, calls[0]), calls[1..], limits);
    }
  }

  lemma Joined<T>(log: seq<T>, a: nat, b: nat, c: nat)
    requires a <= b <= c <= |log|
    ensures log[a..b] + log[b..c] == log[a..c]
  {
  }

  /** One call: its output carries the log between the cursors, but for system frames that it drops. */
  lemma CallCarries(x: Setup, p: Positions, c: Call, logs: Logs)
    requires Ready(x, p, c) && Written(logs, c)
    ensures var q, r := Step(x, p, c), OutputOf(x, p, c, logs);
            && Carries(logs.mic, p.mic, q.mic, if r.None? then [] else r.value.mic)
            && p.system <= q.system <= c.systemEnd && q.mic <= c.micEnd
            && if DropsSystem(x, p, c) then r.None? || r.value.system == []
               else Carries(logs.system, p.system, q.system, if r.None? then [] else r.value.system)
  {
    hide Extract, Consumed, Head;
    StepConsumes(x, p, c);
    var mic := Pull(Some(MicWindow(x, p, c)), logs.mic[p.mic..c.micEnd], false);
    var system := Pull(Some(SystemWindow(x, p, c)), logs.system[p.system..c.systemEnd], false);
    MixedTakes(mic, system, p, c.resampled, logs.mic, logs.system);
  }

  lemma {:induction false} MicLosesNothing(x: Setup, p: Positions, calls: seq<Call>, logs: Logs)
    requires CanRun(x, p, calls) && p.mic <= |logs.mic| && forall c :: c in calls ==> Written(logs, c)
    ensures p.mic <= Run(x, p, calls).mic <= |logs.mic|
    ensures MicOut(x, p, calls, logs) == logs.mic[p.mic..Run(x, p, calls).mic]
    decreases |calls|
  {
    hide Step, OutputOf, DropsSystem, Ready;
    if calls != [] {
      var q := Step(x, p, calls[0]);
      assert Written(logs, calls[0]);
      CallCarries(x, p, calls[0], logs);
      MicLosesNothing(x, q, calls[1..], logs);
      Joined(logs.mic, p.mic, q.mic, Run(x, q, calls[1..]).mic);
    }
  }

  /** The call moves the system cursor over frames that are not in its output: it had frames to keep,
      the rates differ and resampling failed. */
  predicate DropsSystem(x: Setup, p: Positions, c: Call)
    requires Ready(x, p, c)
  {
    Consumed(x, p, c).1 > 0 && x.micRate != x.systemRate && !c.resampled
  }

  predicate KeepsSystem(x: Setup, p: Positions, calls: seq<Call>)
    requires CanRun(x, p, calls)
    decreases |calls|
  {
    calls == [] || (!DropsSystem(x, p, calls[0]) && KeepsSystem(x, Step(x, p, calls[0]), calls[1..]))
  }

  /** The system samples of the outputs are the log between the cursors if and only if no call drops
      any; else they are fewer. */
  lemma {:induction false} SystemExact(x: Setup, p: Positions, calls: seq<Call>, logs: Logs)
    requires CanRun(x, p, calls) && p.system <= |logs.system| && forall c :: c in calls ==> Written(logs, c)
    ensures var q, out := Run(x, p, calls), SystemOut(x, p, calls, logs);
            && p.system <= q.system <= |logs.system| && |out| <= q.system - p.system
            && (KeepsSystem(x, p, calls) ==> out == logs.system[p.system..q.system])
            && (!KeepsSystem(x, p, calls) ==> |out| < q.system - p.system)
    decreases |calls|
  {
    hide Step, OutputOf, DropsSystem, Ready;
    if calls != [] {
      var c := calls[0];
      var q := Step(x, p, c);
      assert Written(logs, c);
      CallCarries(x, p, c, logs);
      SystemExact(x, q, calls[1..], logs);
      Joined(logs.system, p.system, q.system, Run(x, q, calls[1..]).system);
      if DropsSystem(x, p, c) { DropMoves(x, p, c); }
    }
  }

  lemma DropMoves(x: Setup, p: Positions, c: Call)
    requires Ready(x, p, c) && DropsSystem(x, p, c)
    ensures Step(x, p, c).system > p.system
  {
    hide Extract, Consumed;
    StepConsumes(x, p, c);
    RingBuffer.TimesAtLeast(Consumed(x, p, c).1, x.systemChannels);
  }

  /** Nothing is lost and nothing repeated: over any run without an overrun, the mic samples of the
      outputs, put together, are the log from the first cursor to the last one; so are those of the
      system exactly when no call drops frames of it. */
  lemma MixedLosesNothing(x: Setup, p: Positions, calls: seq<Call>, logs: Logs)
    requires CanRun(x, p, calls) && p.mic <= |logs.mic| && p.system <= |logs.system|
    requires forall c :: c in calls ==> Written(logs, c)
    ensures var q := Run(x, p, calls);
            && p.mic <= q.mic <= |logs.mic| && MicOut(x, p, calls, logs) == logs.mic[p.mic..q.mic]
            && p.system <= q.system <= |logs.system|
            && (SystemOut(x, p, calls, logs) == logs.system[p.system..q.system] <==> KeepsSystem(x, p, calls))
  {
    hide Run, MicOut, SystemOut, KeepsSystem;
    MicLosesNothing(x, p, calls, logs);
    SystemExact(x, p, calls, logs);
  }

  predicate TwoSided(x: Setup, p: Positions, calls: seq<Call>)
    requires CanRun(x, p, calls)
    decreases |calls|
  {
    calls == [] || (Frames(MicWindow(x, p, calls[0])) > 0 && Frames(SystemWindow(x, p, calls[0])) > 0
                    && TwoSided(x, Step(x, p, calls[0]), calls[1..]))
  }

  /** Frames consumed over a run. */
  function Total(x: Setup, p: Positions, calls: seq<Call>): (nat, nat)
    requires CanRun(x, p, calls)
    decreases |calls|
  {
    if calls == [] then (0, 0)
    else
      var k, rest := Consumed(x, p, calls[0]), Total(x, Step(x, p, calls[0]), calls[1..]);
      (k.0 + rest.0, k.1 + rest.1)
  }

  lemma {:induction false} TotalIsDistance(x: Setup, p: Positions, calls: seq<Call>)
    requires CanRun(x, p, calls)
    ensures var q, k := Run(x, p, calls), Total(x, p, calls);
            q.mic == p.mic + k.0 * x.micChannels && q.system == p.system + k.1 * x.systemChannels
    decreases |calls|
  {
    hide Extract, Consumed;
    if calls != [] {
      StepConsumes(x, p, calls[0]);
      TotalIsDistance(x, Step(x, p, calls[0]), calls[1..]);
      var k, r := Consumed(x, p, calls[0]), Total(x, Step(x, p, calls[0]), calls[1..]);
      Distribute(k.0, r.0, x.micChannels);
      Distribute(k.1, r.1, x.systemChannels);
    }
  }

  lemma Distribute(a: int, b: int, c: int)
    ensures (a + b) * c == a * c + b * c
  {
  }

  lemma {:induction false} DriftBound(x: Setup, p: Positions, calls: seq<Call>)
    requires CanRun(x, p, calls) && TwoSided(x, p, calls) && calls != []
    ensures var k, n := Total(x, p, calls), |calls|;
            0 - n * x.systemRate < k.0 * x.systemRate - k.1 * x.micRate < n * x.micRate
    decreases |calls|
  {
    hide Extract, Consumed;
    var q, rest := Step(x, p, calls[0]), calls[1..];
    var k, r := Consumed(x, p, calls[0]), Total(x, q, rest);
    StepDrift(x, p, calls[0]);
    Distribute(k.0, r.0, x.systemRate);
    Distribute(k.1, r.1, x.micRate);
    if rest != [] {
      DriftBound(x, q, rest);
      Distribute(1, |rest|, x.systemRate);
      Distribute(1, |rest|, x.micRate);
    }
  }

  /** The time that `samples` interleaved samples last. */
  function Seconds(samples: int, rate: nat, channels: nat): real
    requires rate > 0 && channels > 0
  {
    samples as real / (rate as real * channels as real)
  }

  lemma SecondsOfFrames(frames: nat, rate: nat, channels: nat)
    requires rate > 0 && channels > 0
    ensures Seconds(frames * channels, rate, channels) == Time(frames, rate)
  {
    var t := Time(frames, rate);
    TimeIs(frames, rate);
    assert (frames * channels) as real == frames as real * channels as real;
    assert t * (rate as real * channels as real) == (t * rate as real) * channels as real;
  }

  /** How far apart, in seconds, a run moved the two cursors. */
  function Drift(x: Setup, p: Positions, calls: seq<Call>): real
    requires CanRun(x, p, calls)
  {
    var q := Run(x, p, calls);
    Seconds(q.mic - p.mic, x.micRate, x.micChannels) - Seconds(q.system - p.system, x.systemRate, x.systemChannels)
  }

  lemma DriftOfFrames(x: Setup, p: Positions, calls: seq<Call>)
    requires CanRun(x, p, calls)
    ensures var k := Total(x, p, calls);
            Drift(x, p, calls) == Time(k.0, x.micRate) - Time(k.1, x.systemRate)
  {
    hide Total, Run, Time, Seconds;
    TotalIsDistance(x, p, calls);
    var k := Total(x, p, calls);
    SecondsOfFrames(k.0, x.micRate, x.micChannels);
    SecondsOfFrames(k.1, x.systemRate, x.systemChannels);
  }

  /** After `n` calls with both sources present, the durations the two cursors moved over differ by
      less than `n` frames of the slower source. */
  lemma DriftStaysSmall(x: Setup, p: Positions, calls: seq<Call>)
    requires CanRun(x, p, calls) && TwoSided(x, p, calls) && calls != []
    ensures var n, gap := |calls|, Drift(x, p, calls);
            && 0.0 - Time(n, x.micRate) < gap < Time(n, x.systemRate)
            && 0.0 - Time(n, Least(x.micRate, x.systemRate)) < gap < Time(n, Least(x.micRate, x.systemRate))
  {
    hide Total, TwoSided, Drift, Run;
    DriftBound(x, p, calls);
    DriftOfFrames(x, p, calls);
    var k, n := Total(x, p, calls), |calls|;
    GapInSeconds(k.0, k.1, n, x.micRate, x.systemRate);
  }

  lemma GapInSeconds(m: nat, s: nat, n: nat, a: nat, b: nat)
    requires a > 0 && b > 0 && 0 - n * b < m * b - s * a < n * a
    ensures var gap := Time(m, a) - Time(s, b);
            && 0.0 - Time(n, a) < gap < Time(n, b)
            && 0.0 - Time(n, Least(a, b)) < gap < Time(n, Least(a, b))
  {
    hide Time;
    TimesSum(m, n, a);
    TimesSum(s, n, b);
    Distribute(m, n, b);
    Distribute(s, n, a);
    TimeOrder(s, b, m + n, a);
    TimeOrder(m, a, s + n, b);
    if a <= b { TimeMonotone(n, a, b); } else { TimeMonotone(n, b, a); }
  }

  lemma TimesSum(m: nat, n: nat, rate: nat)
    requires rate > 0
    ensures Time(m + n, rate) == Time(m, rate) + Time(n, rate)
  {
  }

  lemma TimeMonotone(n: nat, a: nat, b: nat)
    requires 0 < a <= b
    ensures Time(n, b) <= Time(n, a)
  {
    TimeOrder(n, a, n, b);
    assert n * (b - a) >= 0;
  }

  // ---- When the drift grows -----------------------------------------------------------------------------

  /** At equal rates a call takes the same number of frames from both sources. */
  lemma EqualRatesKeepStep(x: Setup, p: Positions, c: Call)
    requires Ready(x, p, c) && x.micRate == x.systemRate
    requires Frames(MicWindow(x, p, c)) > 0 && Frames(SystemWindow(x, p, c)) > 0
    ensures Consumed(x, p, c).0 == Consumed(x, p, c).1
  {
    hide Trim, Extract;
    var m, s, rate := Frames(MicWindow(x, p, c)), Frames(SystemWindow(x, p, c)), x.micRate;
    TrimExact(m, rate, s, rate);
    QuotientOfProduct(m, rate);
    QuotientOfProduct(s, rate);
    TimesOrder(m, s, rate);
  }

  lemma TimesOrder(m: nat, s: nat, rate: nat)
    requires rate > 0
    ensures m * rate < s * rate <==> m < s
  {
    if m < s {
      assert (s - m) * rate >= rate by { RingBuffer.TimesAtLeast(s - m, rate); }
      Distribute(s, 0 - m, rate);
    } else {
      assert (m - s) * rate >= 0;
      Distribute(m, 0 - s, rate);
    }
  }

  /** So at equal rates nothing drifts, in any run with both sources present. */
  lemma {:induction false} NoDriftAtEqualRates(x: Setup, p: Positions, calls: seq<Call>)
    requires CanRun(x, p, calls) && TwoSided(x, p, calls) && x.micRate == x.systemRate
    ensures Total(x, p, calls).0 == Total(x, p, calls).1 && Drift(x, p, calls) == 0.0
    decreases |calls|
  {
    hide Extract, Consumed, Drift;
    DriftOfFrames(x, p, calls);
    if calls != [] {
      EqualRatesKeepStep(x, p, calls[0]);
      NoDriftAtEqualRates(x, Step(x, p, calls[0]), calls[1..]);
    }
  }

  /** One frame of each source at a time: the faster source advances, the slower one's frame is given
      back every time. */
  function OneFrameCalls(x: Setup, from: nat, n: nat): seq<Call>
    decreases n
  {
    if n == 0 then []
    else
      var c := if x.micRate > x.systemRate then Call((from + 1) * x.micChannels, x.systemChannels, true)
               else Call(x.micChannels, (from + 1) * x.systemChannels, true);
      [c] + OneFrameCalls(x, from + 1, n - 1)
  }

  function AfterFrames(x: Setup, from: nat): Positions {
    if x.micRate > x.systemRate then Positions(from * x.micChannels, 0) else Positions(0, from * x.systemChannels)
  }

  /** The next frame of a source, as a window. */
  lemma OneFrame(from: nat, rate: nat, channels: nat)
    requires rate > 0 && channels > 0
    ensures (from + 1) * channels == from * channels + channels
    ensures channels % channels == 0 && channels / channels == 1
  {
    Distribute(from, 1, channels);
    RingBuffer.Divided(channels, channels, 1, 0);
  }

  lemma TrimOneFrame(a: nat, b: nat)
    requires a > 0 && b > 0 && a != b
    ensures Trim(1, a, 1, b) == if a > b then (1, 0) else (0, 1)
  {
    TrimExact(1, a, 1, b);
    if a > b { RingBuffer.Divided(b, a, 0, b); } else { RingBuffer.Divided(a, b, 0, a); }
  }

  lemma OneFrameStep(x: Setup, from: nat)
    requires Proper(x) && x.micRate != x.systemRate
    ensures var p, c := AfterFrames(x, from), OneFrameCalls(x, from, 1)[0];
            && Ready(x, p, c) && Step(x, p, c) == AfterFrames(x, from + 1)
            && Frames(MicWindow(x, p, c)) == 1 && Frames(SystemWindow(x, p, c)) == 1
            && Consumed(x, p, c) == (if x.micRate > x.systemRate then (1, 0) else (0, 1))
  {
    hide Trim;
    var p, c := AfterFrames(x, from), OneFrameCalls(x, from, 1)[0];
    OneFrame(from, x.micRate, x.micChannels);
    OneFrame(from, x.systemRate, x.systemChannels);
    OneFrame(0, x.micRate, x.micChannels);
    OneFrame(0, x.systemRate, x.systemChannels);
    TrimOneFrame(x.micRate, x.systemRate);
    assert Ready(x, p, c);
    StepConsumes(x, p, c);
  }

  /** At any two different rates and any channels, for every `n`, `n` calls can move the cursor of the
      faster source by `n` frames and the slower one's not at all. */
  lemma {:induction false} DriftCanGrow(x: Setup, from: nat, n: nat)
    requires Proper(x) && x.micRate != x.systemRate
    ensures var p, calls := AfterFrames(x, from), OneFrameCalls(x, from, n);
            && |calls| == n && CanRun(x, p, calls) && TwoSided(x, p, calls)
            && Run(x, p, calls) == AfterFrames(x, from + n)
            && Total(x, p, calls) == (if x.micRate > x.systemRate then (n, 0) else (0, n))
    decreases n
  {
    hide Extract, Consumed, Step, Ready;
    if n > 0 {
      var p, calls := AfterFrames(x, from), OneFrameCalls(x, from, n);
      assert OneFrameCalls(x, from, 1)[0] == calls[0];
      assert calls[1..] == OneFrameCalls(x, from + 1, n - 1);
      OneFrameStep(x, from);
      DriftCanGrow(x, from + 1, n - 1);
    }
  }

  /** Some bound on the drift holds for all runs with both sources present, however long. */
  ghost predicate DriftIsBounded(x: Setup) {
    exists bound: real :: DriftsAtMost(x, bound)
  }

  ghost predicate DriftsAtMost(x: Setup, bound: real) {
    forall p, calls :: CanRun(x, p, calls) && TwoSided(x, p, calls) ==> 0.0 - bound <= Drift(x, p, calls) <= bound
  }

  /** Trimming by time keeps the drift bounded, however many calls, exactly when the two sample rates
      are equal; and then there is none. */
  lemma DriftIsBoundedIff(x: Setup)
    requires Proper(x)
    ensures DriftIsBounded(x) <==> x.micRate == x.systemRate
  {
    if x.micRate == x.systemRate {
      forall p, calls | CanRun(x, p, calls) && TwoSided(x, p, calls) ensures 0.0 <= Drift(x, p, calls) <= 0.0 {
        NoDriftAtEqualRates(x, p, calls);
      }
      assert DriftsAtMost(x, 0.0);
    } else {
      forall bound: real ensures !DriftsAtMost(x, bound) {
        var seconds := if bound < 0.0 then 1 else bound.Floor + 1;
        var rate := if x.micRate > x.systemRate then x.micRate else x.systemRate;
        var n := seconds * rate;
        DriftCanGrow(x, 0, n);
        TimeOfSeconds(seconds, rate);
        ZeroTime(x.micRate);
        ZeroTime(x.systemRate);
        var p, calls := AfterFrames(x, 0), OneFrameCalls(x, 0, n);
        assert CanRun(x, p, calls) && TwoSided(x, p, calls);
        DriftOfFrames(x, p, calls);
        assert Drift(x, p, calls) == seconds as real || Drift(x, p, calls) == 0.0 - seconds as real;
      }
    }
  }

  lemma ZeroTime(rate: nat)
    requires rate > 0
    ensures Time(0, rate) == 0.0
  {
  }

  lemma TimeOfSeconds(seconds: nat, rate: nat)
    requires rate > 0
    ensures Time(seconds * rate, rate) == seconds as real
  {
    assert (seconds * rate) as real == seconds as real * rate as real;
  }

  // ---- The capture manager ------------------------------------------------------------------------------

  ghost predicate Sound(b: RingBuffer.AudioRingBuffer?)
    reads if b != null then {b, b.buffer} else {}
  {
    b != null ==> b.Valid()
  }

  /** The pull of everything since a cursor, as far as the buffer still has it. */
  ghost function Since(b: RingBuffer.AudioRingBuffer?, position: nat): (p: Pull)
    requires Sound(b)
    reads if b != null then {b, b.buffer} else {}
    ensures p.Valid()
  {
    if b == null then Pull(None, [], false)
    else
      var w := |b.st.log|;
      if w <= position then Pull(Some(Window(position, position, b.sampleRate, b.channels)), [], false)
      else
        var start := RingBuffer.Most(position, w - b.capacity);
        Pull(Some(Window(start, w, b.sampleRate, b.channels)), b.st.log[start..w], false)
  }

  /** How far a bounded pull can go: to its limit, and past it only up to the first sample that the
      buffer still has. */
  ghost function Furthest(b: RingBuffer.AudioRingBuffer?, position: nat, limit: nat): (f: nat)
    requires Sound(b)
    reads if b != null then {b, b.buffer} else {}
    ensures position <= f
  {
    if b == null then position
    else RingBuffer.Most(RingBuffer.Most(position, |b.st.log| - b.capacity), limit)
  }

  /** The pull of a cursor range. */
  ghost function Between(b: RingBuffer.AudioRingBuffer?, position: nat, limit: nat): (p: Pull)
    requires Sound(b)
    reads if b != null then {b, b.buffer} else {}
    ensures p.Valid()
    ensures p.window.Some? <==> b != null
    ensures p.window.Some? ==> p.window.value.end <= Furthest(b, position, limit)
    ensures p.window.Some? && !p.overrun ==> p.window.value.end <= RingBuffer.Most(position, limit)
  {
    if b == null then Pull(None, [], false)
    else
      var w := |b.st.log|;
      var end := Least(limit, w);
      var start := RingBuffer.Most(position, w - b.capacity);
      if end <= position then Pull(Some(Window(position, position, b.sampleRate, b.channels)), [], false)
      else if end <= start then Pull(Some(Window(start, start, b.sampleRate, b.channels)), [], start > position)
      else Pull(Some(Window(start, end, b.sampleRate, b.channels)), b.st.log[start..end], start > position)
  }

  ghost function LogOf(b: RingBuffer.AudioRingBuffer?): seq<RingBuffer.Sample>
    reads if b != null then {b} else {}
  {
    if b == null then [] else b.st.log
  }

  /** How far a pull goes that is limited to `limit`. */
  ghost function Reach(b: RingBuffer.AudioRingBuffer?, position: nat, limit: nat): nat
    reads if b != null then {b} else {}
  {
    if b == null then position else RingBuffer.Most(position, Least(limit, |b.st.log|))
  }

  /** The buffer still has everything from the cursor to there, and that is whole frames. */
  ghost predicate HasFrom(b: RingBuffer.AudioRingBuffer?, position: nat, to: nat)
    requires Sound(b)
    reads if b != null then {b, b.buffer} else {}
  {
    b != null && position < to ==> |b.st.log| - b.capacity <= position && (to - position) % b.channels == 0
  }

  /** The mic alone has to do: both buffers are there, at different rates, and resampling failed. */
  predicate MicFallback(mic: RingBuffer.AudioRingBuffer?, system: RingBuffer.AudioRingBuffer?, resampled: bool) {
    mic != null && system != null && mic.sampleRate != system.sampleRate && !resampled
  }

  /** The rate is that of the buffer the output comes from, the mic's for a mix if there is one. */
  predicate HasRate(mode: Mode, rate: nat, mic: RingBuffer.AudioRingBuffer?, system: RingBuffer.AudioRingBuffer?) {
    if mode == MicOnly || (mode == Mixed && mic != null) then mic != null && rate == mic.sampleRate
    else system != null && rate == system.sampleRate
  }

  /** A pull that the buffer has dropped the start of. */
  ghost predicate Overruns(b: RingBuffer.AudioRingBuffer?, position: nat, limit: nat)
    requires Sound(b)
    reads if b != null then {b, b.buffer} else {}
  {
    b != null && position < Least(limit, |b.st.log|) && position < |b.st.log| - b.capacity
  }

  /** How much was written to the buffers. */
  ghost function WrittenTo(mic: RingBuffer.AudioRingBuffer?, system: RingBuffer.AudioRingBuffer?): Positions
    reads if mic != null then {mic} else {}, if system != null then {system} else {}
  {
    Positions(|LogOf(mic)|, |LogOf(system)|)
  }

  /** As long as the buffers still have everything between the cursors and the limits, in whole frames, a call
      takes what lies there, as `Takes` says. */
  ghost predicate TakesFrom(
    mic: RingBuffer.AudioRingBuffer?, system: RingBuffer.AudioRingBuffer?, mode: Mode, r: Option<Output>,
    positions: Positions, limits: Positions, resampled: bool)
    requires Sound(mic) && Sound(system)
    reads if mic != null then {mic, mic.buffer} else {}, if system != null then {system, system.buffer} else {}
  {
    var ends := Positions(Reach(mic, positions.mic, limits.mic), Reach(system, positions.system, limits.system));
    HasFrom(mic, positions.mic, ends.mic) && HasFrom(system, positions.system, ends.system) ==>
      Takes(mode, r, LogOf(mic), LogOf(system), positions, ends, MicFallback(mic, system, resampled))
  }

  lemma SincePulls(b: RingBuffer.AudioRingBuffer?, position: nat)
    requires Sound(b) && HasFrom(b, position, Reach(b, position, |LogOf(b)|))
    ensures PullsFrom(Since(b, position), LogOf(b), position)
    ensures NextCursor(Since(b, position).window, position) == Reach(b, position, |LogOf(b)|)
  {
  }

  lemma BetweenPulls(b: RingBuffer.AudioRingBuffer?, position: nat, limit: nat)
    requires Sound(b) && HasFrom(b, position, Reach(b, position, limit))
    ensures PullsFrom(Between(b, position, limit), LogOf(b), position)
    ensures NextCursor(Between(b, position, limit).window, position) == Reach(b, position, limit)
  {
  }

  class AudioCaptureManager {
    var micBuffer: RingBuffer.AudioRingBuffer?
    var systemBuffer: RingBuffer.AudioRingBuffer?

    /** Everything since the cursors. */
    method ExtractSince(positions: Positions, mode: Mode, resampled: bool) returns (r: Option<Output>)
      requires Sound(micBuffer) && Sound(systemBuffer)
      ensures r == Assembled(mode, Since(micBuffer, positions.mic), Since(systemBuffer, positions.system),
                             positions, resampled)
      ensures TakesFrom(micBuffer, systemBuffer, mode, r, positions, WrittenTo(micBuffer, systemBuffer), resampled)
      ensures r.Some? ==> HasRate(mode, r.value.rate, micBuffer, systemBuffer) && !r.value.overrun
    {
      hide Assembled, Since, TakesFrom, HasRate, WrittenTo;
      var mic := PullSince(micBuffer, positions.mic);
      var system := PullSince(systemBuffer, positions.system);
      r := Assemble(mode, mic, system, positions, resampled);
      TakesSince(positions, mode, resampled);
    }

    lemma TakesSince(positions: Positions, mode: Mode, resampled: bool)
      requires Sound(micBuffer) && Sound(systemBuffer)
      ensures var r := Assembled(mode, Since(micBuffer, positions.mic), Since(systemBuffer, positions.system),
                                 positions, resampled);
              && TakesFrom(micBuffer, systemBuffer, mode, r, positions, WrittenTo(micBuffer, systemBuffer), resampled)
              && (r.Some? ==> HasRate(mode, r.value.rate, micBuffer, systemBuffer) && !r.value.overrun)
    {
      hide Assembled, Takes;
      var mic, system := Since(micBuffer, positions.mic), Since(systemBuffer, positions.system);
      AssembledRate(mode, mic, system, positions, resampled);
      if HasFrom(micBuffer, positions.mic, Reach(micBuffer, positions.mic, |LogOf(micBuffer)|))
         && HasFrom(systemBuffer, positions.system, Reach(systemBuffer, positions.system, |LogOf(systemBuffer)|))
      {
        SincePulls(micBuffer, positions.mic);
        SincePulls(systemBuffer, positions.system);
        AnyTakes(mode, mic, system, positions, resampled, LogOf(micBuffer), LogOf(systemBuffer));
      }
    }

    /** Everything between the cursors and the limits. Only an overrun can put a next cursor past its
        limit, and then no further than the first sample the buffer still has. */
    method ExtractSinceUntil(positions: Positions, limits: Positions, mode: Mode, resampled: bool)
      returns (r: Option<Output>)
      requires Sound(micBuffer) && Sound(systemBuffer)
      ensures r.Some? ==>
                && r.value.next.mic <= Furthest(micBuffer, positions.mic, limits.mic)
                && r.value.next.system <= Furthest(systemBuffer, positions.system, limits.system)
      ensures r.Some? && !r.value.overrun ==>
                && r.value.next.mic <= RingBuffer.Most(positions.mic, limits.mic)
                && r.value.next.system <= RingBuffer.Most(positions.system, limits.system)
      ensures r == Assembled(mode, Between(micBuffer, positions.mic, limits.mic),
                             Between(systemBuffer, positions.system, limits.system), positions, resampled)
      ensures TakesFrom(micBuffer, systemBuffer, mode, r, positions, limits, resampled)
      ensures r.Some? ==>
                && HasRate(mode, r.value.rate, micBuffer, systemBuffer)
                && r.value.overrun == (Overruns(micBuffer, positions.mic, limits.mic)
                                       || Overruns(systemBuffer, positions.system, limits.system))
    {
      hide Assembled, Between, Furthest, TakesFrom, HasRate, Overruns;
      var mic := PullBetween(micBuffer, positions.mic, limits.mic);
      var system := PullBetween(systemBuffer, positions.system, limits.system);
      r := Assemble(mode, mic, system, positions, resampled);
      CutWithin(mode, mic, system, positions, resampled,
                Furthest(micBuffer, positions.mic, limits.mic),
                Furthest(systemBuffer, positions.system, limits.system));
      if !(mic.overrun || system.overrun) {
        CutWithin(mode, mic, system, positions, resampled,
                  RingBuffer.Most(positions.mic, limits.mic), RingBuffer.Most(positions.system, limits.system));
      }
      TakesUntil(positions, limits, mode, resampled);
    }

    lemma TakesUntil(positions: Positions, limits: Positions, mode: Mode, resampled: bool)
      requires Sound(micBuffer) && Sound(systemBuffer)
      ensures var r := Assembled(mode, Between(micBuffer, positions.mic, limits.mic),
                                 Between(systemBuffer, positions.system, limits.system), positions, resampled);
              && TakesFrom(micBuffer, systemBuffer, mode, r, positions, limits, resampled)
              && (r.Some? ==>
                    && HasRate(mode, r.value.rate, micBuffer, systemBuffer)
                    && r.value.overrun == (Overruns(micBuffer, positions.mic, limits.mic)
                                           || Overruns(systemBuffer, positions.system, limits.system)))
    {
      hide Assembled, Takes;
      var mic := Between(micBuffer, positions.mic, limits.mic);
      var system := Between(systemBuffer, positions.system, limits.system);
      AssembledRate(mode, mic, system, positions, resampled);
      if HasFrom(micBuffer, positions.mic, Reach(micBuffer, positions.mic, limits.mic))
         && HasFrom(systemBuffer, positions.system, Reach(systemBuffer, positions.system, limits.system))
      {
        BetweenPulls(micBuffer, positions.mic, limits.mic);
        BetweenPulls(systemBuffer, positions.system, limits.system);
        AnyTakes(mode, mic, system, positions, resampled, LogOf(micBuffer), LogOf(systemBuffer));
      }
    }

    method PullSince(b: RingBuffer.AudioRingBuffer?, position: nat) returns (p: Pull)
      requires Sound(b)
      ensures p == Since(b, position)
    {
      if b == null { return Pull(None, [], false); }
      var snap, end := b.SnapshotSinceWithPos(position);
      p := Pull(Some(Window(end - |snap|, end, b.sampleRate, b.channels)), snap, false);
    }

    method PullBetween(b: RingBuffer.AudioRingBuffer?, position: nat, limit: nat) returns (p: Pull)
      requires Sound(b)
      ensures p == Between(b, position, limit)
    {
      if b == null { return Pull(None, [], false); }
      var snap := b.SnapshotRange(position, limit);
      p := Pull(Some(Window(snap.startPos, snap.endPos, b.sampleRate, b.channels)), snap.samples, snap.overrun);
    }

    /** The trimming both forms share. */
    method Assemble(mode: Mode, mic: Pull, system: Pull, positions: Positions, resampled: bool)
      returns (r: Option<Output>)
      requires mic.Valid() && system.Valid()
      ensures r == Assembled(mode, mic, system, positions, resampled)
    {
      hide Trim, Fit, Time;
      var m, s := FramesOf(mic.window), FramesOf(system.window);
      var micPos, systemPos := NextCursor(mic.window, positions.mic), NextCursor(system.window, positions.system);
      var overrun := mic.overrun || system.overrun;
      var rate, micKeep, systemKeep := 0, m, s;
      match mode {
        case MicOnly =>
          if m == 0 { return None; }
          rate, systemKeep := mic.window.value.rate, 0;
        case SystemOnly =>
          if s == 0 { return None; }
          rate, micKeep := system.window.value.rate, 0;
        case Mixed =>
          if m == 0 && s == 0 { return None; }
          rate := if mic.window.Some? then mic.window.value.rate else system.window.value.rate;
          if m > 0 && s > 0 {
            var mw, sw := mic.window.value, system.window.value;
            var keep := Trim(m, mw.rate, s, sw.rate);
            micKeep, systemKeep := keep.0, keep.1;
            micPos := GiveBack(micPos, m - micKeep, mw.channels);
            systemPos := GiveBack(systemPos, s - systemKeep, sw.channels);
          }
          var mixed := Mix(mic.window, system.window, micKeep, systemKeep, resampled);
          if mixed == None { return None; }
          micKeep, systemKeep := mixed.value.0, mixed.value.1;
      }
      r := Some(Output(Head(mic, micKeep), Head(system, systemKeep), rate, Positions(micPos, systemPos), overrun));
    }
  }

  lemma CutWithin(mode: Mode, mic: Pull, system: Pull, positions: Positions, resampled: bool,
                  micMost: nat, systemMost: nat)
    requires mic.Valid() && system.Valid()
    requires mic.window.Some? ==> mic.window.value.end <= micMost
    requires system.window.Some? ==> system.window.value.end <= systemMost
    requires positions.mic <= micMost && positions.system <= systemMost
    ensures match Assembled(mode, mic, system, positions, resampled)
            case None => true
            case Some(out) =>
              && out.overrun == (mic.overrun || system.overrun)
              && out.next.mic <= micMost && out.next.system <= systemMost
  {
    hide Extract;
    BoundedStaysWithin(mode, mic.window, system.window, positions, resampled, micMost, systemMost);
  }

  /** A call hands out no cursor past the windows it was given. */
  lemma BoundedStaysWithin(mode: Mode, mic: Option<Window>, system: Option<Window>, positions: Positions,
                           resampled: bool, micMost: nat, systemMost: nat)
    requires mic.Some? ==> mic.value.Valid() && mic.value.end <= micMost
    requires system.Some? ==> system.value.Valid() && system.value.end <= systemMost
    requires positions.mic <= micMost && positions.system <= systemMost
    ensures match Extract(mode, mic, system, positions, resampled)
            case None => true
            case Some(cut) => cut.next.mic <= micMost && cut.next.system <= systemMost
  {
    hide Trim;
    if mic.Some? && system.Some? {
      var keep := Trim(Frames(mic.value), mic.value.rate, Frames(system.value), system.value.rate);
      GiveBackIsExact(mic.value, keep.0);
      GiveBackIsExact(system.value, keep.1);
    }
  }
}
