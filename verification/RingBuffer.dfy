/** The audio ring buffer: a fixed array written modulo its length by one producer and read through
    unbounded cursors by a consumer. The unbounded log of every sample ever written is the reference:
    the protocol of single stores, loads and the commit of the write position is a state machine over
    it, and the class below performs exactly those steps. */
module RingBuffer {
  import opened Wrappers
  import opened Bytes

  /** Samples are opaque: the 32 bits of a float. */
  type Sample = u32

  function Slot(p: nat, capacity: nat): (s: nat)
    requires capacity > 0
    ensures s < capacity
  {
    p % capacity
  }

  /** Walking `i` on from a slot stays in the array, or wraps once. */
  lemma SlotStep(p: nat, i: nat, capacity: nat)
    requires capacity > 0 && i <= capacity
    ensures var o := Slot(p, capacity);
            (o + i < capacity ==> Slot(p + i, capacity) == o + i) &&
            (capacity <= o + i < 2 * capacity ==> Slot(p + i, capacity) == o + i - capacity)
  {
    var d, o := p / capacity, p % capacity;
    if o + i < capacity {
      Divided(p + i, capacity, d, o + i);
    } else if o + i < 2 * capacity {
      assert (d + 1) * capacity == d * capacity + capacity;
      Divided(p + i, capacity, d + 1, o + i - capacity);
    }
  }

  lemma Divided(n: nat, capacity: nat, d: nat, r: nat)
    requires capacity > 0 && r < capacity && n == d * capacity + r
    ensures n / capacity == d && n % capacity == r
  {
    var q := n / capacity;
    assert (q - d) * capacity == r - n % capacity == -((d - q) * capacity);
    if q > d {
      TimesAtLeast(q - d, capacity);
      assert false;
    } else if q < d {
      TimesAtLeast(d - q, capacity);
      assert false;
    }
  }

  lemma TimesAtLeast(k: nat, c: nat)
    requires k >= 1
    ensures k * c >= c
  {
    assert k * c == (k - 1) * c + c;
  }

  /** Positions that share a slot are whole laps apart. */
  lemma SameSlot(p: nat, q: nat, capacity: nat) returns (laps: nat)
    requires capacity > 0 && p <= q && Slot(p, capacity) == Slot(q, capacity)
    ensures q == p + laps * capacity
    ensures laps == 0 <==> q == p
    ensures q > p ==> q >= p + capacity
  {
    var a, b := p / capacity, q / capacity;
    assert q - p == (b - a) * capacity == -((a - b) * capacity);
    if b < a {
      TimesAtLeast(a - b, capacity);
      assert false;
    }
    laps := b - a;
    if laps > 0 { TimesAtLeast(laps, capacity); }
  }

  // ---- The protocol ---------------------------------------------------------------------------------

  /** `slots` and `commit` are the shared atomics. `log` is every sample handed to a write so far, in
      order, those of the write in progress included; `next` is the position the producer stores
      next. `holds` and `stored` are history: the position last stored in a slot, and all positions
      stored. */
  datatype State = State(
    slots: seq<Sample>, commit: nat, log: seq<Sample>, next: nat, holds: map<nat, nat>, stored: set<nat>)

  datatype Event = Begin(data: seq<Sample>) | Store | Commit

  ghost predicate Init(s: State, capacity: nat) {
    |s.slots| == capacity > 0 && s.commit == 0 && s.log == [] && s.next == 0 && s.holds == map[] && s.stored == {}
  }

  function Next(s: State, e: Event): State
    requires |s.slots| > 0
  {
    match e
    case Begin(data) =>
      // Samples that the same write would overwrite are skipped; the position counts them.
      if s.commit == |s.log| then
        s.(log := s.log + data, next := s.commit + (if |data| > |s.slots| then |data| - |s.slots| else 0))
      else s
    case Store =>
      if s.next < |s.log| then
        var slot := Slot(s.next, |s.slots|);
        s.(slots := s.slots[slot := s.log[s.next]], holds := s.holds[slot := s.next],
           stored := s.stored + {s.next}, next := s.next + 1)
      else s
    case Commit => if s.next == |s.log| then s.(commit := |s.log|) else s
  }

  ghost predicate Counters(s: State) {
    |s.slots| > 0 && s.commit <= s.next <= |s.log| && (s.commit == |s.log| ==> s.next == |s.log|)
  }

  /** A slot holds the sample of the position last stored in it. */
  ghost predicate Holds(s: State) {
    && |s.slots| > 0
    && (forall i :: i in s.holds ==>
          && i < |s.slots| && s.holds[i] in s.stored && s.holds[i] < |s.log| && s.holds[i] < s.next
          && Slot(s.holds[i], |s.slots|) == i && s.slots[i] == s.log[s.holds[i]])
    && (forall p :: p in s.stored ==> Slot(p, |s.slots|) in s.holds && p <= s.holds[Slot(p, |s.slots|)])
  }

  /** The last `capacity` committed positions have been stored, and those of the write in progress
      up to `next`. */
  ghost predicate Covered(s: State) {
    && (forall p :: s.commit - |s.slots| <= p < s.commit && 0 <= p ==> p in s.stored)
    && (forall p :: s.commit <= p < s.next && |s.log| - |s.slots| <= p ==> p in s.stored)
  }

  ghost predicate Inv(s: State) { Counters(s) && Holds(s) && Covered(s) }

  lemma StepKeepsInv(s: State, e: Event)
    requires Inv(s)
    ensures Inv(Next(s, e)) && s.log <= Next(s, e).log && |Next(s, e).slots| == |s.slots|
    ensures s.stored <= Next(s, e).stored && s.next <= Next(s, e).next
  {
    hide Slot;
  }

  function Run(s: State, events: seq<Event>): State
    requires |s.slots| > 0
    decreases |events|
  {
    if events == [] then s else
      var t := Next(s, events[0]);
      if |t.slots| > 0 then Run(t, events[1..]) else t
  }

  lemma {:induction false} RunKeepsInv(s: State, events: seq<Event>)
    requires Inv(s)
    ensures var t := Run(s, events);
            Inv(t) && s.log <= t.log && |t.slots| == |s.slots| && s.stored <= t.stored && s.next <= t.next
    decreases |events|
  {
    if events != [] {
      StepKeepsInv(s, events[0]);
      RunKeepsInv(Next(s, events[0]), events[1..]);
    }
  }

  /** What the consumer gets for cursor `p`. */
  function Load(s: State, p: nat): Sample
    requires |s.slots| > 0
  {
    s.slots[Slot(p, |s.slots|)]
  }

  /** What a slot yields for a position that has been stored in it. */
  lemma LoadOfStored(s: State, p: nat) returns (laps: nat)
    requires Inv(s) && p in s.stored
    ensures p + laps * |s.slots| in s.stored && p + laps * |s.slots| < |s.log|
    ensures Load(s, p) == s.log[p + laps * |s.slots|]
    ensures laps == 0 <==> forall q :: q in s.stored && Slot(q, |s.slots|) == Slot(p, |s.slots|) ==> q <= p
    ensures s.next <= p + |s.slots| ==> laps == 0
  {
    hide Slot;
    var q := s.holds[Slot(p, |s.slots|)];
    laps := SameSlot(p, q, |s.slots|);
  }

  /** The consumer loads the write position in `s` and, after any steps of the producer, the slot of
      a cursor that was readable: it gets the sample of that cursor or of the same slot some laps
      later, and it gets the sample of the cursor itself unless a later position had been stored in
      the slot by then; in particular unless the producer had come within a lap. */
  lemma RacingRead(s: State, events: seq<Event>, p: nat) returns (laps: nat)
    requires Inv(s) && s.commit - |s.slots| <= p < s.commit
    ensures var t := Run(s, events);
            && p + laps * |s.slots| in t.stored && p + laps * |s.slots| < |t.log| && |t.slots| == |s.slots|
            && Load(t, p) == t.log[p + laps * |s.slots|]
            && s.log <= t.log
            && (laps == 0 <==> forall q :: q in t.stored && Slot(q, |s.slots|) == Slot(p, |s.slots|) ==> q <= p)
            && (t.next <= p + |s.slots| ==> laps == 0)
  {
    RunKeepsInv(s, events);
    laps := LoadOfStored(Run(s, events), p);
  }

  /** The loads of a snapshot, each after some more steps of the producer. */
  function Loads(s: State, pauses: seq<seq<Event>>, p: nat): (r: seq<Sample>)
    requires |s.slots| > 0
    decreases |pauses|
  {
    if pauses == [] then [] else
      var t := Run(s, pauses[0]);
      if |t.slots| > 0 then [Load(t, p)] + Loads(t, pauses[1..], p + 1) else []
  }

  function After(s: State, pauses: seq<seq<Event>>): State
    requires |s.slots| > 0
    decreases |pauses|
  {
    if pauses == [] then s else
      var t := Run(s, pauses[0]);
      if |t.slots| > 0 then After(t, pauses[1..]) else t
  }

  lemma {:induction false} AfterKeepsInv(s: State, pauses: seq<seq<Event>>)
    requires Inv(s)
    ensures var t := After(s, pauses);
            Inv(t) && s.log <= t.log && |t.slots| == |s.slots| && s.stored <= t.stored && s.next <= t.next
    decreases |pauses|
  {
    hide Inv;
    NonEmpty(s);
    if pauses != [] {
      var m := Run(s, pauses[0]);
      RunKeepsInv(s, pauses[0]);
      NonEmpty(m);
      AfterKeepsInv(m, pauses[1..]);
    }
  }

  lemma NonEmpty(s: State)
    requires Inv(s)
    ensures |s.slots| > 0
  {
  }

  ghost predicate LapsLater(log: seq<Sample>, p: nat, capacity: nat, x: Sample) {
    exists laps: nat :: IsLap(log, p, capacity, laps, x)
  }

  ghost predicate IsLap(log: seq<Sample>, p: nat, capacity: nat, laps: nat, x: Sample) {
    p + laps * capacity < |log| && x == log[p + laps * capacity]
  }

  /** A sample read for cursor `p`: some laps later in the log, or exactly that cursor's. */
  ghost predicate Read(log: seq<Sample>, p: nat, capacity: nat, exact: bool, x: Sample) {
    LapsLater(log, p, capacity, x) && (exact ==> p < |log| && x == log[p])
  }

  lemma ReadOfStored(m: State, t: State, first: nat, p: nat)
    requires Inv(m) && p in m.stored && m.log <= t.log && m.next <= t.next && first <= p
    ensures Read(t.log, p, |m.slots|, t.next <= first + |m.slots|, Load(m, p))
  {
    hide Load;
    var laps := LoadOfStored(m, p);
    assert IsLap(t.log, p, |m.slots|, laps, Load(m, p));
  }

  lemma {:induction false} LoadsOfStored(s: State, pauses: seq<seq<Event>>, first: nat, p: nat)
    requires Inv(s) && first <= p && forall k :: p <= k < p + |pauses| ==> k in s.stored
    ensures var r, t := Loads(s, pauses, p), After(s, pauses);
            && |r| == |pauses|
            && forall k :: 0 <= k < |r| ==> Read(t.log, p + k, |s.slots|, t.next <= first + |s.slots|, r[k])
    decreases |pauses|
  {
    hide Load, Run, Inv, Read;
    NonEmpty(s);
    if pauses != [] {
      var m := Run(s, pauses[0]);
      RunKeepsInv(s, pauses[0]);
      NonEmpty(m);
      AfterKeepsInv(m, pauses[1..]);
      LoadsOfStored(m, pauses[1..], first, p + 1);
      var r, rest, t := Loads(s, pauses, p), Loads(m, pauses[1..], p + 1), After(s, pauses);
      ReadOfStored(m, t, first, p);
      forall k | 0 <= k < |r| ensures Read(t.log, p + k, |s.slots|, t.next <= first + |s.slots|, r[k]) {
        if k > 0 {
          assert r[k] == rest[k - 1] && p + k == p + 1 + (k - 1);
        }
      }
    }
  }

  /** A whole snapshot of readable cursors that races the producer: sample by sample, what the log
      holds at that cursor or whole laps after it; and exactly the log if the producer did not come
      within a lap of its first cursor. */
  lemma RacingSnapshot(s: State, pauses: seq<seq<Event>>, p: nat)
    requires Inv(s) && s.commit - |s.slots| <= p && p + |pauses| <= s.commit
    ensures var r, t := Loads(s, pauses, p), After(s, pauses);
            && |r| == |pauses| && s.log <= t.log
            && (forall k :: 0 <= k < |r| ==> LapsLater(t.log, p + k, |s.slots|, r[k]))
            && (t.next <= p + |s.slots| ==> r == s.log[p..p + |pauses|])
  {
    hide Loads, After, LapsLater;
    AfterKeepsInv(s, pauses);
    LoadsOfStored(s, pauses, p, p);
    var r, t := Loads(s, pauses, p), After(s, pauses);
    forall k | 0 <= k < |r| ensures LapsLater(t.log, p + k, |s.slots|, r[k]) {
      assert Read(t.log, p + k, |s.slots|, t.next <= p + |s.slots|, r[k]);
    }
    if t.next <= p + |s.slots| {
      forall k | 0 <= k < |r| ensures r[k] == s.log[p..p + |pauses|][k] {
        assert Read(t.log, p + k, |s.slots|, true, r[k]);
      }
    }
  }

  // ---- The buffer ------------------------------------------------------------------------------------

  datatype RangeSnapshot = RangeSnapshot(samples: seq<Sample>, startPos: nat, endPos: nat, overrun: bool)

  /** With no write in progress, a readable cursor yields its sample. */
  lemma IdleLoad(s: State, p: nat)
    requires Inv(s) && s.commit == |s.log| && s.commit - |s.slots| <= p < s.commit
    ensures Load(s, p) == s.log[p]
  {
    var laps := LoadOfStored(s, p);
  }

  class AudioRingBuffer {
    const buffer: array<Sample>
    const capacity: nat
    const sampleRate: nat
    const channels: nat
    var writePos: nat
    ghost var st: State

    /** The array, the write position and the history agree, at any point of a write. */
    ghost predicate Mirrors()
      reads this, buffer
    {
      && buffer.Length == capacity == |st.slots| && st.slots == buffer[..] && st.commit == writePos
      && Inv(st)
    }

    ghost predicate Valid()
      reads this, buffer
    {
      Mirrors() && writePos == |st.log| && sampleRate > 0 && channels > 0
    }

    constructor (cap: nat, rate: nat, ch: nat)
      requires cap > 0 && rate > 0 && ch > 0
      ensures Valid() && fresh(buffer) && capacity == cap && sampleRate == rate && channels == ch && st.log == []
    {
      capacity, sampleRate, channels, writePos := cap, rate, ch, 0;
      buffer := new Sample[cap](_ => 0);
      new;
      st := State(buffer[..], 0, [], 0, map[], {});
    }

    /** One store of the producer. */
    method StoreNext(slot: nat, sample: Sample)
      requires Mirrors() && st.next < |st.log|
      requires slot == Slot(st.next, capacity) && sample == st.log[st.next]
      modifies this`st, buffer
      ensures Mirrors() && st == Next(old(st), Store)
    {
      StepKeepsInv(st, Store);
      buffer[slot] := sample;
      st := Next(st, Store);
      assert buffer[..] == st.slots;
    }

    /** Stores to consecutive slots. */
    method StoreRun(offset: nat, data: seq<Sample>)
      requires Mirrors() && offset + |data| <= capacity && offset == Slot(st.next, capacity)
      requires st.next + |data| <= |st.log| && data == st.log[st.next..st.next + |data|]
      modifies this`st, buffer
      ensures Mirrors() && st.log == old(st.log) && st.next == old(st.next) + |data|
    {
      hide Slot, Inv, Next;
      ghost var from := st.next;
      for i := 0 to |data|
        invariant Mirrors() && st.log == old(st.log) && st.next == from + i
      {
        SlotStep(from, i, capacity);
        StoreEffect(st);
        StoreNext(offset + i, data[i]);
      }
    }

    /** The stores of one write: to the end of the array, and from its start if it wraps. */
    method StoreKept(effectivePos: nat, kept: seq<Sample>)
      requires Mirrors() && |kept| <= capacity && st.next == effectivePos
      requires effectivePos + |kept| == |st.log| && kept == st.log[effectivePos..effectivePos + |kept|]
      modifies this`st, buffer
      ensures Mirrors() && st.log == old(st.log) && st.next == |st.log|
    {
      hide Slot, Inv, Next;
      NonEmpty(st);
      var offset := Slot(effectivePos, capacity);
      if offset + |kept| <= capacity {
        StoreRun(offset, kept);
      } else {
        var first := capacity - offset;
        SlotStep(effectivePos, first, capacity);
        StoreRun(offset, kept[..first]);
        StoreRun(0, kept[first..]);
      }
    }

    /** Append `data` to the log; of data longer than the buffer only the end is stored, and the
        position still counts all of it. */
    method Write(data: seq<Sample>)
      requires Valid()
      modifies this, buffer
      ensures Valid() && st.log == old(st.log) + data && writePos == old(writePos) + |data|
    {
      hide Slot, Inv, Next;
      if data == [] {
        assert st.log + data == st.log;
        return;
      }
      var pos := writePos;
      var kept := if |data| > capacity then data[|data| - capacity..] else data;
      var effectivePos := pos + (|data| - |kept|);
      NonEmpty(st);
      BeginWrite(st, data);
      st := Next(st, Begin(data));
      assert kept == st.log[effectivePos..effectivePos + |kept|];
      StoreKept(effectivePos, kept);
      CommitEffect(st);
      writePos := pos + |data|;
      st := Next(st, Commit);
    }

    /** The stored samples of `n` readable cursors, in one or two runs through the array. */
    method CopyOut(startPos: nat, n: nat) returns (samples: seq<Sample>)
      requires Valid() && 0 < n && writePos - capacity <= startPos && startPos + n <= writePos
      ensures samples == st.log[startPos..startPos + n]
    {
      hide Slot, Inv;
      var result := new Sample[n](_ => 0);
      var startOffset := Slot(startPos, capacity);
      if startOffset + n <= capacity {
        for i := 0 to n
          invariant forall k :: 0 <= k < i ==> result[k] == st.log[startPos + k]
        {
          SlotStep(startPos, i, capacity);
          IdleLoad(st, startPos + i);
          result[i] := buffer[startOffset + i];
        }
      } else {
        var first := capacity - startOffset;
        for i := 0 to first
          invariant forall k :: 0 <= k < i ==> result[k] == st.log[startPos + k]
        {
          SlotStep(startPos, i, capacity);
          IdleLoad(st, startPos + i);
          result[i] := buffer[startOffset + i];
        }
        for i := 0 to n - first
          invariant forall k :: 0 <= k < first + i ==> result[k] == st.log[startPos + k]
        {
          SlotStep(startPos, first + i, capacity);
          IdleLoad(st, startPos + (first + i));
          result[first + i] := buffer[i];
        }
      }
      samples := result[..];
      assert samples == st.log[startPos..startPos + n];
    }

    /** The last `numSamples` samples, as far as they are still there. */
    method SnapshotSamples(numSamples: nat) returns (samples: seq<Sample>)
      requires Valid()
      ensures |samples| == Least(numSamples, Least(|st.log|, capacity))
      ensures samples == st.log[|st.log| - |samples|..]
    {
      if writePos == 0 { return []; }
      var available := Least(writePos, capacity);
      var toRead := Least(numSamples, available);
      if toRead == 0 { return []; }
      samples := CopyOut(writePos - toRead, toRead);
    }

    /** What was written from `sincePos` on, at most the last `capacity` of it, and the cursor to
        continue from. */
    method SnapshotSinceWithPos(sincePos: nat) returns (samples: seq<Sample>, nextPos: nat)
      requires Valid()
      ensures |st.log| <= sincePos ==> samples == [] && nextPos == sincePos
      ensures |st.log| > sincePos ==>
                nextPos == |st.log| && samples == st.log[Most(sincePos, |st.log| - capacity)..]
    {
      if writePos <= sincePos { return [], sincePos; }
      var toRead := Least(writePos - sincePos, capacity);
      samples := CopyOut(writePos - toRead, toRead);
      nextPos := writePos;
    }

    /** Exactly the readable part of the cursor range, and whether its start had to move. */
    method SnapshotRange(fromPos: nat, untilPos: nat) returns (r: RangeSnapshot)
      requires Valid()
      ensures var end := Least(untilPos, |st.log|);
              var start := Most(fromPos, |st.log| - capacity);
              if end <= fromPos then r == RangeSnapshot([], fromPos, fromPos, false)
              else
                && r.overrun == (start > fromPos) && r.startPos == start && r.endPos == Most(start, end)
                && r.samples == (if end <= start then [] else st.log[start..end])
    {
      var endPos := Least(untilPos, writePos);
      if endPos <= fromPos { return RangeSnapshot([], fromPos, fromPos, false); }
      var earliest := if writePos < capacity then 0 else writePos - capacity;
      var startPos := if fromPos > earliest then fromPos else earliest;
      var overrun := startPos > fromPos;
      if endPos <= startPos { return RangeSnapshot([], startPos, startPos, overrun); }
      var samples := CopyOut(startPos, endPos - startPos);
      r := RangeSnapshot(samples, startPos, endPos, overrun);
    }
  }

  function Least(a: nat, b: nat): nat { if a < b then a else b }

  function Most(a: nat, b: int): nat { if a < b then b else a }

  lemma BeginWrite(s: State, data: seq<Sample>)
    requires Inv(s) && s.commit == |s.log|
    ensures var t := Next(s, Begin(data));
            && Inv(t) && t.slots == s.slots && t.commit == s.commit && t.log == s.log + data
            && t.next == s.commit + (if |data| > |s.slots| then |data| - |s.slots| else 0)
  {
    StepKeepsInv(s, Begin(data));
  }

  lemma StoreEffect(s: State)
    requires |s.slots| > 0 && s.next < |s.log|
    ensures var t := Next(s, Store); t.log == s.log && t.next == s.next + 1 && t.commit == s.commit
  {
  }

  lemma CommitEffect(s: State)
    requires Inv(s) && s.next == |s.log|
    ensures var t := Next(s, Commit); Inv(t) && t.log == s.log && t.slots == s.slots && t.commit == |s.log|
  {
    StepKeepsInv(s, Commit);
  }
}
