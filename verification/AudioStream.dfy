/** The segment layer of sealed audio blobs: a header and a stream of authenticated segments, sealed
    and opened one chunk at a time with one chunk of look-ahead, over a source that may return short
    reads and a destination that may fill up. The cipher under the segments is abstract: what is
    asked of it is stated by `Delivers` and `OpensOnlyIssued`. */
module AudioStream {
  import opened Wrappers
  import opened Bytes

  const VERSION: byte := 0x01
  const PREFIX_LEN: nat := 19
  const TAG_LEN: nat := 16
  const HEADER_LEN: nat := 24
  const MAX_CHUNK_SIZE: nat := 64 * 1024 * 1024

  /** The highest segment counter; it is only ever used for a last segment. */
  const LAST_COUNTER: nat := TWO_32 - 1

  datatype StreamError = Malformed | Version(v: byte) | SealFailed | OpenFailed | Io

  /** The cipher under one blob's data key: nonce, associated data, message. */
  datatype Aead = Aead(
    seal: (seq<byte>, seq<byte>, seq<byte>) -> seq<byte>,
    open: (seq<byte>, seq<byte>, seq<byte>) -> Option<seq<byte>>)

  /** What went to the destination, and the error that ended it, if any. */
  datatype Outcome = Outcome(written: seq<byte>, error: Option<StreamError>)

  function Header(chunkSize: u32, prefix: seq<byte>): seq<byte> {
    [VERSION] + BigEndian(chunkSize, 4) + prefix
  }

  function Nonce(prefix: seq<byte>, counter: nat, last: bool): (n: seq<byte>)
    ensures |n| == |prefix| + 5
  {
    prefix + BigEndian(counter, 4) + [if last then 1 else 0]
  }

  // ---- Framing ------------------------------------------------------------------------------------

  /** `b` cut into pieces of `size` bytes; the last piece is what remains, and there always is one. */
  function Chunks(size: nat, b: seq<byte>): (c: seq<seq<byte>>)
    requires size > 0
    ensures |c| > 0
    decreases |b|
  {
    if |b| <= size then [b] else [b[..size]] + Chunks(size, b[size..])
  }

  function JoinFrom(c: seq<seq<byte>>, i: nat): seq<byte>
    requires i <= |c|
    decreases |c| - i
  {
    if i == |c| then [] else c[i] + JoinFrom(c, i + 1)
  }

  /** Only the last piece may be short, and it is empty only when it is the only one. */
  predicate Framed(size: nat, c: seq<seq<byte>>) {
    && |c| > 0
    && (forall i :: 0 <= i < |c| - 1 ==> |c[i]| == size)
    && |c[|c| - 1]| <= size
    && (|c| > 1 ==> c[|c| - 1] != [])
  }

  lemma {:induction false} JoinShift(d: seq<seq<byte>>, c: seq<seq<byte>>, i: nat)
    requires i <= |c| && |d| == |c| + 1 && forall k :: 0 <= k < |c| ==> c[k] == d[k + 1]
    ensures JoinFrom(d, i + 1) == JoinFrom(c, i)
    decreases |c| - i
  {
    if i < |c| {
      JoinShift(d, c, i + 1);
      assert c[i] == d[i + 1];
    }
  }

  /** Cutting loses nothing and frames properly. */
  lemma {:induction false} ChunksFrame(size: nat, b: seq<byte>)
    requires size > 0
    ensures Framed(size, Chunks(size, b)) && JoinFrom(Chunks(size, b), 0) == b
    decreases |b|
  {
    var c := Chunks(size, b);
    if |b| <= size {
      assert JoinFrom(c, 1) == [];
      assert JoinFrom(c, 0) == b + [];
    } else {
      var x, rest := b[..size], Chunks(size, b[size..]);
      ChunksFrame(size, b[size..]);
      assert c == [x] + rest;
      JoinShift(c, rest, 0);
      assert c[|c| - 1] == rest[|rest| - 1];
      assert |rest| == 1 ==> JoinFrom(rest, 0) == rest[0] + JoinFrom(rest, 1) == rest[0];
      assert JoinFrom(c, 0) == x + JoinFrom(rest, 0) == b;
    }
  }

  /** The number of pieces is the length over the size, rounded up, and one for an empty input. */
  lemma {:induction false} ChunkCount(size: nat, b: seq<byte>)
    requires size > 0
    ensures var n := |Chunks(size, b)|; |b| <= n * size && (n == 1 || (n - 1) * size < |b|)
    decreases |b|
  {
    if |b| > size {
      var rest := Chunks(size, b[size..]);
      ChunkCount(size, b[size..]);
      assert (|rest| + 1) * size == |rest| * size + size;
      if |rest| > 1 {
        assert |rest| * size == (|rest| - 1) * size + size;
      }
    }
  }

  /** Cutting is the only way to frame. */
  lemma {:induction false} FramedAreChunks(size: nat, c: seq<seq<byte>>)
    requires size > 0 && Framed(size, c)
    ensures Chunks(size, JoinFrom(c, 0)) == c
    decreases |c|
  {
    if |c| == 1 {
      assert JoinFrom(c, 1) == [];
      assert JoinFrom(c, 0) == c[0] + [] == c[0];
      assert c == [c[0]];
    } else {
      var rest := c[1..];
      assert c == [c[0]] + rest;
      JoinShift(c, rest, 0);
      var b := JoinFrom(c, 0);
      assert JoinFrom(c, 1) == JoinFrom(rest, 0);
      assert rest[|rest| - 1] == c[|c| - 1];
      assert rest[0] == c[1];
      assert b == c[0] + JoinFrom(rest, 0);
      assert JoinFrom(rest, 0) == rest[0] + JoinFrom(rest, 1);
      assert rest[0] != [];
      FramedAreChunks(size, rest);
      assert b[..size] == c[0] && b[size..] == JoinFrom(rest, 0);
    }
  }

  // ---- What sealing and opening compute ---------------------------------------------------------------

  /** Piece `i` sealed under its counter, the last one under the last-piece flag. */
  function Segment(a: Aead, header: seq<byte>, prefix: seq<byte>, chunks: seq<seq<byte>>, i: nat): seq<byte>
    requires i < |chunks|
  {
    a.seal(Nonce(prefix, i, i == |chunks| - 1), header, chunks[i])
  }

  /** Sealing from piece `i` on; the highest counter is refused to any but the last piece. */
  function SealFrom(a: Aead, header: seq<byte>, prefix: seq<byte>, chunks: seq<seq<byte>>, i: nat): Outcome
    requires i < |chunks|
    decreases |chunks| - i
  {
    if i == |chunks| - 1 then Outcome(Segment(a, header, prefix, chunks, i), None)
    else if i == LAST_COUNTER then Outcome([], Some(SealFailed))
    else
      var rest := SealFrom(a, header, prefix, chunks, i + 1);
      Outcome(Segment(a, header, prefix, chunks, i) + rest.written, rest.error)
  }

  function Sealed(a: Aead, prefix: seq<byte>, chunkSize: u32, plain: seq<byte>): Outcome {
    if chunkSize == 0 then Outcome([], Some(Malformed))
    else
      var header := Header(chunkSize, prefix);
      var body := SealFrom(a, header, prefix, Chunks(chunkSize, plain), 0);
      Outcome(header + body.written, body.error)
  }

  /** Opening from segment `i` on: the plaintext released before the first segment that fails. */
  function OpenFrom(a: Aead, header: seq<byte>, prefix: seq<byte>, segs: seq<seq<byte>>, i: nat): Outcome
    requires i < |segs|
    decreases |segs| - i
  {
    var last := i == |segs| - 1;
    if !last && i == LAST_COUNTER then Outcome([], Some(OpenFailed))
    else
      match a.open(Nonce(prefix, i, last), header, segs[i])
      case None => Outcome([], Some(OpenFailed))
      case Some(m) =>
        if last then Outcome(m, None)
        else
          var rest := OpenFrom(a, header, prefix, segs, i + 1);
          Outcome(m + rest.written, rest.error)
  }

  function ChunkSizeOf(header: seq<byte>): nat
    requires |header| == HEADER_LEN
  {
    FromBigEndian(header[1..5])
  }

  function Opened(a: Aead, b: seq<byte>): Outcome {
    if |b| < HEADER_LEN then Outcome([], Some(Malformed))
    else
      var header := b[..HEADER_LEN];
      if header[0] != VERSION then Outcome([], Some(Version(header[0])))
      else if ChunkSizeOf(header) == 0 || ChunkSizeOf(header) > MAX_CHUNK_SIZE || |b| == HEADER_LEN then
        Outcome([], Some(Malformed))
      else
        OpenFrom(a, header, header[5..], Chunks(ChunkSizeOf(header) + TAG_LEN, b[HEADER_LEN..]), 0)
  }

  // ---- What is asked of the cipher ----------------------------------------------------------------------

  ghost predicate AddsTag(a: Aead) {
    forall n: seq<byte>, h: seq<byte>, m: seq<byte> :: |a.seal(n, h, m)| == |m| + TAG_LEN
  }

  /** The segments sealed for `chunks` open to their pieces. */
  ghost predicate Delivers(a: Aead, header: seq<byte>, prefix: seq<byte>, chunks: seq<seq<byte>>) {
    && AddsTag(a)
    && forall i :: 0 <= i < |chunks| && i < TWO_32 ==>
         a.open(Nonce(prefix, i, i == |chunks| - 1), header, Segment(a, header, prefix, chunks, i)) == Some(chunks[i])
  }

  ghost predicate Issued(a: Aead, header: seq<byte>, prefix: seq<byte>, chunks: seq<seq<byte>>, i: nat,
                         n: seq<byte>, h: seq<byte>, c: seq<byte>) {
    && i < |chunks| && i < TWO_32 && h == header
    && n == Nonce(prefix, i, i == |chunks| - 1)
    && c == Segment(a, header, prefix, chunks, i)
  }

  /** Authenticity, as an ideal: nothing opens but a segment that was sealed for `chunks`, under the
      very nonce and header it was sealed with. */
  ghost predicate OpensOnlyIssued(a: Aead, header: seq<byte>, prefix: seq<byte>, chunks: seq<seq<byte>>) {
    forall n: seq<byte>, h: seq<byte>, c: seq<byte> :: a.open(n, h, c).Some? ==>
      exists i: nat :: Issued(a, header, prefix, chunks, i, n, h, c)
  }

  // ---- Headers and nonces ---------------------------------------------------------------------------------

  lemma HeaderFields(chunkSize: u32, prefix: seq<byte>)
    requires |prefix| == PREFIX_LEN
    ensures var h := Header(chunkSize, prefix);
            |h| == HEADER_LEN && h[0] == VERSION && h[5..] == prefix && ChunkSizeOf(h) == chunkSize
  {
    hide BigEndian, FromBigEndian;
    Pow256Values();
    BigEndianThenBack(chunkSize, 4);
    assert Header(chunkSize, prefix)[1..5] == BigEndian(chunkSize, 4);
  }

  /** The header, byte for byte: the version, the chunk size, most significant byte first, and the nonce prefix.
      A segment's nonce is that prefix, its counter in the same way, and 1 for the last segment, else 0. */
  lemma BytesOnTheWire(chunkSize: u32, prefix: seq<byte>, counter: nat, last: bool)
    requires |prefix| == PREFIX_LEN && counter < TWO_32
    ensures var h := Header(chunkSize, prefix);
            |h| == 24 && h[0] == 0x01 && FromBigEndian(h[1..5]) == chunkSize && h[5..24] == prefix
    ensures var n := Nonce(prefix, counter, last);
            |n| == 24 && n[..19] == prefix && FromBigEndian(n[19..23]) == counter && n[23] == if last then 1 else 0
  {
    hide BigEndian, FromBigEndian;
    HeaderFields(chunkSize, prefix);
    Pow256Values();
    BigEndianThenBack(counter, 4);
    assert Nonce(prefix, counter, last)[19..23] == BigEndian(counter, 4);
  }

  /** A nonce names one counter and one flag. */
  lemma NonceInjective(prefix: seq<byte>, i: nat, iLast: bool, k: nat, kLast: bool)
    requires i < TWO_32 && k < TWO_32 && Nonce(prefix, i, iLast) == Nonce(prefix, k, kLast)
    ensures i == k && iLast == kLast
  {
    hide BigEndian, FromBigEndian;
    var p := |prefix|;
    var n := Nonce(prefix, i, iLast);
    assert n[p..p + 4] == BigEndian(i, 4);
    assert Nonce(prefix, k, kLast)[p..p + 4] == BigEndian(k, 4);
    assert n[p + 4] == (if iLast then 1 else 0);
    assert Nonce(prefix, k, kLast)[p + 4] == (if kLast then 1 else 0);
    Pow256Values();
    BigEndianThenBack(i, 4);
    BigEndianThenBack(k, 4);
  }

  /** What the refusals mean, for every input: too short for a header, of another version, without an acceptable
      chunk size or without a segment. Anything else opens, or fails at a segment. */
  lemma RefusalsOfOpening(a: Aead, b: seq<byte>)
    ensures var error := Opened(a, b).error;
            var known := |b| >= 24 && b[0] == 0x01;
            var size := if |b| >= 24 then FromBigEndian(b[1..5]) else 0;
            var sound := known && 1 <= size <= 64 * 1024 * 1024 && |b| > 24;
            && (error == Some(Malformed) <==> |b| < 24 || (known && !sound))
            && (|b| >= 24 && b[0] != 0x01 <==> error == Some(Version(if |b| > 0 then b[0] else 0)))
            && (sound ==> error == None || error == Some(OpenFailed))
            && (!sound ==> Opened(a, b).written == [])
  {
    hide OpenFrom, FromBigEndian;
    if |b| > HEADER_LEN && b[0] == VERSION {
      assert b[..HEADER_LEN][1..5] == b[1..5];
      if 1 <= ChunkSizeOf(b[..HEADER_LEN]) <= MAX_CHUNK_SIZE {
        OpenErrors(a, b[..HEADER_LEN], b[..HEADER_LEN][5..],
                   Chunks(ChunkSizeOf(b[..HEADER_LEN]) + TAG_LEN, b[HEADER_LEN..]), 0);
      }
    } else if |b| == HEADER_LEN {
      assert b[..HEADER_LEN] == b;
    }
  }

  lemma {:induction false} OpenErrors(a: Aead, header: seq<byte>, prefix: seq<byte>, segs: seq<seq<byte>>, i: nat)
    requires i < |segs|
    ensures var e := OpenFrom(a, header, prefix, segs, i).error; e == None || e == Some(OpenFailed)
    decreases |segs| - i
  {
    if i < |segs| - 1 { OpenErrors(a, header, prefix, segs, i + 1); }
  }

  // ---- Round trip ---------------------------------------------------------------------------------------------

  function Segments(a: Aead, header: seq<byte>, prefix: seq<byte>, chunks: seq<seq<byte>>): (s: seq<seq<byte>>)
    ensures |s| == |chunks|
    ensures forall i :: 0 <= i < |s| ==> s[i] == Segment(a, header, prefix, chunks, i)
  {
    seq(|chunks|, i requires 0 <= i < |chunks| => Segment(a, header, prefix, chunks, i))
  }

  lemma {:induction false} SealWritesSegments(
    a: Aead, header: seq<byte>, prefix: seq<byte>, chunks: seq<seq<byte>>, i: nat)
    requires i < |chunks| && i <= LAST_COUNTER
    ensures var o := SealFrom(a, header, prefix, chunks, i);
            && (o.error == None <==> |chunks| <= TWO_32)
            && (o.error == None ==> o.written == JoinFrom(Segments(a, header, prefix, chunks), i))
            && (o.error != None ==> o.error == Some(SealFailed))
    decreases |chunks| - i
  {
    var segs := Segments(a, header, prefix, chunks);
    if i == |chunks| - 1 {
      assert JoinFrom(segs, i + 1) == [];
    } else if i != LAST_COUNTER {
      SealWritesSegments(a, header, prefix, chunks, i + 1);
    }
  }

  lemma {:induction false} OpenReleasesChunks(
    a: Aead, header: seq<byte>, prefix: seq<byte>, chunks: seq<seq<byte>>, i: nat)
    requires Delivers(a, header, prefix, chunks) && i < |chunks| <= TWO_32
    ensures OpenFrom(a, header, prefix, Segments(a, header, prefix, chunks), i) == Outcome(JoinFrom(chunks, i), None)
    decreases |chunks| - i
  {
    if i == |chunks| - 1 {
      assert JoinFrom(chunks, i + 1) == [];
    } else {
      OpenReleasesChunks(a, header, prefix, chunks, i + 1);
    }
  }

  lemma SegmentsFrame(a: Aead, header: seq<byte>, prefix: seq<byte>, size: nat, chunks: seq<seq<byte>>)
    requires AddsTag(a) && size > 0 && Framed(size, chunks)
    ensures var segs := Segments(a, header, prefix, chunks);
            && Framed(size + TAG_LEN, segs) && JoinFrom(segs, 0) != []
            && Chunks(size + TAG_LEN, JoinFrom(segs, 0)) == segs
  {
    var segs := Segments(a, header, prefix, chunks);
    forall i | 0 <= i < |segs| ensures |segs[i]| == |chunks[i]| + TAG_LEN {}
    FramedAreChunks(size + TAG_LEN, segs);
    assert JoinFrom(segs, 0) == segs[0] + JoinFrom(segs, 1);
  }

  /** What is sealed opens to what went in, exactly when the chunk size is one that opening accepts
      and the segments do not outrun the counter. Sealing itself has no upper bound on the chunk
      size: a larger one seals without an error into a blob that can never be opened. */
  lemma RoundTrip(a: Aead, prefix: seq<byte>, chunkSize: u32, plain: seq<byte>)
    requires |prefix| == PREFIX_LEN
    requires chunkSize > 0 ==> Delivers(a, Header(chunkSize, prefix), prefix, Chunks(chunkSize, plain))
    ensures var s := Sealed(a, prefix, chunkSize, plain);
            && (s.error == None && Opened(a, s.written) == Outcome(plain, None)
                <==> 1 <= chunkSize <= MAX_CHUNK_SIZE && |Chunks(chunkSize, plain)| <= TWO_32)
            && (s.error == None <==> chunkSize >= 1 && |Chunks(chunkSize, plain)| <= TWO_32)
            && (s.error == None && chunkSize > MAX_CHUNK_SIZE ==> Opened(a, s.written).error == Some(Malformed))
  {
    hide Delivers, Header, ChunkSizeOf, Chunks, SealFrom, OpenFrom, JoinFrom, Segment;
    if chunkSize > 0 {
      var header, chunks := Header(chunkSize, prefix), Chunks(chunkSize, plain);
      HeaderFields(chunkSize, prefix);
      ChunksFrame(chunkSize, plain);
      assert AddsTag(a) by { DeliveryAddsTags(a, header, prefix, chunks); }
      SealWritesSegments(a, header, prefix, chunks, 0);
      if |chunks| <= TWO_32 {
        SegmentsFrame(a, header, prefix, chunkSize, chunks);
        OpenReleasesChunks(a, header, prefix, chunks, 0);
        var b := Sealed(a, prefix, chunkSize, plain).written;
        assert b[..HEADER_LEN] == header && b[HEADER_LEN..] == JoinFrom(Segments(a, header, prefix, chunks), 0);
      }
    }
  }

  lemma DeliveryAddsTags(a: Aead, header: seq<byte>, prefix: seq<byte>, chunks: seq<seq<byte>>)
    requires Delivers(a, header, prefix, chunks)
    ensures AddsTag(a)
  {
  }

  // ---- Nothing else opens -------------------------------------------------------------------------------------

  /** A segment that opens is the one sealed at that position, with that flag, under that header. */
  lemma OnlyIssuedOpens(a: Aead, header: seq<byte>, prefix: seq<byte>, chunks: seq<seq<byte>>,
                        h: seq<byte>, p: seq<byte>, i: nat, last: bool, c: seq<byte>)
    requires Delivers(a, header, prefix, chunks) && OpensOnlyIssued(a, header, prefix, chunks)
    requires |p| == |prefix| && i < TWO_32 && a.open(Nonce(p, i, last), h, c).Some?
    ensures h == header && i < |chunks| && last == (i == |chunks| - 1)
    ensures c == Segment(a, header, prefix, chunks, i) && a.open(Nonce(p, i, last), h, c) == Some(chunks[i])
  {
    hide BigEndian, FromBigEndian;
    var n := Nonce(p, i, last);
    var k: nat :| Issued(a, header, prefix, chunks, k, n, h, c);
    assert n[..|p|] == p && Nonce(prefix, k, k == |chunks| - 1)[..|p|] == prefix;
    NonceInjective(prefix, i, last, k, k == |chunks| - 1);
  }

  lemma {:induction false} OpenOfIssued(a: Aead, header: seq<byte>, prefix: seq<byte>, chunks: seq<seq<byte>>,
                                        h: seq<byte>, p: seq<byte>, segs: seq<seq<byte>>, i: nat)
    requires Delivers(a, header, prefix, chunks) && OpensOnlyIssued(a, header, prefix, chunks)
    requires |p| == |prefix| && i < |segs| && i < |chunks| <= TWO_32
    ensures var o := OpenFrom(a, h, p, segs, i);
            && o.written <= JoinFrom(chunks, i)
            && (o.error == None ==>
                  && h == header && |segs| == |chunks|
                  && forall k :: i <= k < |segs| ==> segs[k] == Segment(a, header, prefix, chunks, k))
            && (o.error != None ==> o.error == Some(OpenFailed))
    decreases |chunks| - i
  {
    hide Delivers, OpensOnlyIssued, Nonce, Segment;
    var last := i == |segs| - 1;
    if (last || i != LAST_COUNTER) && a.open(Nonce(p, i, last), h, segs[i]).Some? {
      OnlyIssuedOpens(a, header, prefix, chunks, h, p, i, last, segs[i]);
      if last {
        assert JoinFrom(chunks, i + 1) == [];
      } else {
        OpenOfIssued(a, header, prefix, chunks, h, p, segs, i + 1);
      }
    }
  }

  /** Under an ideal cipher the sealed bytes are the only bytes that open, over all byte strings:
      every truncation, extension, reordering and edit of header or segments fails. And whatever the
      bytes are, what reaches the destination is a prefix of the plaintext that was sealed. */
  lemma OnlySealedOpens(a: Aead, prefix: seq<byte>, chunkSize: u32, plain: seq<byte>, b: seq<byte>)
    requires |prefix| == PREFIX_LEN && 1 <= chunkSize <= MAX_CHUNK_SIZE
    requires |Chunks(chunkSize, plain)| <= TWO_32
    requires Delivers(a, Header(chunkSize, prefix), prefix, Chunks(chunkSize, plain))
    requires OpensOnlyIssued(a, Header(chunkSize, prefix), prefix, Chunks(chunkSize, plain))
    ensures Opened(a, b).error == None <==> b == Sealed(a, prefix, chunkSize, plain).written
    ensures Opened(a, b).error == None ==> Opened(a, b).written == plain
    ensures Opened(a, b).written <= plain
  {
    hide Delivers, OpensOnlyIssued, Header, ChunkSizeOf, Chunks, SealFrom, OpenFrom, JoinFrom, Segment;
    var header, chunks := Header(chunkSize, prefix), Chunks(chunkSize, plain);
    RoundTrip(a, prefix, chunkSize, plain);
    HeaderFields(chunkSize, prefix);
    ChunksFrame(chunkSize, plain);
    if |b| > HEADER_LEN && b[0] == VERSION && 1 <= ChunkSizeOf(b[..HEADER_LEN]) <= MAX_CHUNK_SIZE {
      var h := b[..HEADER_LEN];
      var size := ChunkSizeOf(h) + TAG_LEN;
      var segs := Chunks(size, b[HEADER_LEN..]);
      assert Opened(a, b) == OpenFrom(a, h, h[5..], segs, 0);
      OpenOfIssued(a, header, prefix, chunks, h, h[5..], segs, 0);
      if Opened(a, b).error == None {
        ChunksFrame(size, b[HEADER_LEN..]);
        assert segs == Segments(a, header, prefix, chunks);
        SealWritesSegments(a, header, prefix, chunks, 0);
        assert b == header + JoinFrom(segs, 0);
      }
    }
  }

  ghost predicate IssuedWith(tag: seq<byte>, header: seq<byte>, prefix: seq<byte>, chunks: seq<seq<byte>>, i: nat,
                             n: seq<byte>, h: seq<byte>, c: seq<byte>) {
    && i < |chunks| && i < TWO_32 && h == header
    && n == Nonce(prefix, i, i == |chunks| - 1) && c == chunks[i] + tag
  }

  ghost function IdealCipher(tag: seq<byte>, header: seq<byte>, prefix: seq<byte>, chunks: seq<seq<byte>>): Aead
    requires |tag| == TAG_LEN
  {
    Aead((n: seq<byte>, h: seq<byte>, m: seq<byte>) => m + tag,
         (n: seq<byte>, h: seq<byte>, c: seq<byte>) =>
           if |c| >= TAG_LEN && exists i: nat :: IssuedWith(tag, header, prefix, chunks, i, n, h, c)
           then Some(c[..|c| - TAG_LEN]) else None)
  }

  /** The two assumptions on the cipher can be met together, for every blob. */
  lemma IdealCipherMeetsBoth(tag: seq<byte>, header: seq<byte>, prefix: seq<byte>, chunks: seq<seq<byte>>)
    requires |tag| == TAG_LEN
    ensures Delivers(IdealCipher(tag, header, prefix, chunks), header, prefix, chunks)
    ensures OpensOnlyIssued(IdealCipher(tag, header, prefix, chunks), header, prefix, chunks)
  {
    hide Nonce;
    var a := IdealCipher(tag, header, prefix, chunks);
    forall i | 0 <= i < |chunks| && i < TWO_32
      ensures a.open(Nonce(prefix, i, i == |chunks| - 1), header, Segment(a, header, prefix, chunks, i))
              == Some(chunks[i])
    {
      var c := chunks[i] + tag;
      assert IssuedWith(tag, header, prefix, chunks, i, Nonce(prefix, i, i == |chunks| - 1), header, c);
      assert c[..|c| - TAG_LEN] == chunks[i];
    }
    forall n: seq<byte>, h: seq<byte>, c: seq<byte> | a.open(n, h, c).Some?
      ensures exists i: nat :: Issued(a, header, prefix, chunks, i, n, h, c)
    {
      var i: nat :| IssuedWith(tag, header, prefix, chunks, i, n, h, c);
      assert Issued(a, header, prefix, chunks, i, n, h, c);
    }
  }

  // ---- The source and the destination -----------------------------------------------------------------------------

  /** What the next read does: a short read of one byte and up to `extra` more, an interruption, or
      a failure. */
  datatype ReadEvent = Short(extra: nat) | Interrupted | Broken

  /** A byte source. After its scripted reads it delivers all it is asked for; at the end of the data
      a read delivers nothing. */
  class Source {
    const data: seq<byte>
    var pos: nat
    var script: seq<ReadEvent>

    ghost predicate Valid() reads this { pos <= |data| }

    ghost function Unread(): seq<byte> reads this requires Valid() { data[pos..] }

    constructor (d: seq<byte>, reads_: seq<ReadEvent>)
      ensures Valid() && Unread() == d && script == reads_
    {
      data, pos, script := d, 0, reads_;
    }

    /** One read into `buf` from `from` on. */
    method Read(buf: array<byte>, from: nat) returns (r: Result<nat, ReadEvent>)
      requires Valid() && from < buf.Length
      modifies this, buf
      ensures Valid()
      ensures match r
              case Ok(n) =>
                && n <= buf.Length - from && n <= |old(Unread())| && (n == 0 <==> old(Unread()) == [])
                && buf[..from + n] == old(buf[..from]) + old(Unread())[..n] && Unread() == old(Unread())[n..]
                && (script == old(script) || (old(script) != [] && script == old(script)[1..]))
              case Err(e) =>
                && old(script) != [] && e == old(script)[0] && !e.Short? && script == old(script)[1..]
                && Unread() == old(Unread()) && buf[..] == old(buf[..])
    {
      var most := if buf.Length - from < |data| - pos then buf.Length - from else |data| - pos;
      if script != [] {
        var e := script[0];
        script := script[1..];
        if !e.Short? { return Err(e); }
        most := if most < e.extra + 1 then most else e.extra + 1;
      }
      forall k | from <= k < from + most { buf[k] := data[pos + k - from]; }
      assert buf[..from + most] == old(buf[..from]) + data[pos..][..most];
      assert data[pos..][most..] == data[pos + most..];
      pos := pos + most;
      r := Ok(most);
    }
  }

  /** A destination with room for `room` bytes, or without a bound. Writing past the room writes what
      fits and fails. */
  class Sink {
    var out: seq<byte>
    const room: Option<nat>

    constructor (r: Option<nat>)
      ensures out == [] && room == r
    {
      out, room := [], r;
    }

    method WriteAll(b: seq<byte>) returns (ok: bool)
      modifies this
      ensures ok ==> out == old(out) + b
      ensures !ok ==> room.Some? && old(out) <= out <= old(out) + b
      ensures room == None ==> ok
    {
      if room.Some? && |out| + |b| > room.value {
        var fits := if room.value <= |out| then 0 else room.value - |out|;
        out := out + b[..fits];
        ok := false;
      } else {
        out := out + b;
        ok := true;
      }
    }
  }

  /** Fill `buf`, looping over short and interrupted reads; fewer bytes than asked mean the end. */
  method ReadFull(src: Source, buf: array<byte>) returns (r: Result<nat, StreamError>)
    requires src.Valid()
    modifies src, buf
    ensures src.Valid()
    ensures match r
            case Ok(n) =>
              && n == (if buf.Length < |old(src.Unread())| then buf.Length else |old(src.Unread())|)
              && buf[..n] == old(src.Unread())[..n] && src.Unread() == old(src.Unread())[n..]
            case Err(e) => e == Io && Broken in old(src.script)
    ensures Broken in src.script ==> Broken in old(src.script)
  {
    var filled := 0;
    ghost var all, script := src.Unread(), src.script;
    while filled < buf.Length
      invariant src.Valid() && filled <= buf.Length && filled <= |all|
      invariant buf[..filled] == all[..filled] && src.Unread() == all[filled..]
      invariant Broken in src.script ==> Broken in script
      decreases buf.Length - filled, |src.script|
    {
      ghost var unread, held := src.Unread(), buf[..];
      var got := src.Read(buf, filled);
      match got {
        case Ok(n) =>
          if n == 0 { break; }
          assert all[..filled] + unread[..n] == all[..filled + n] && unread[n..] == all[filled + n..];
          filled := filled + n;
        case Err(e) =>
          if e.Broken? { return Err(Io); }
          assert buf[..filled] == buf[..][..filled] == held[..filled];
      }
    }
    r := Ok(filled);
  }

  /** The bytes that were read, out of the buffer. */
  method ReadChunk(src: Source, buf: array<byte>) returns (r: Result<seq<byte>, StreamError>)
    requires src.Valid()
    modifies src, buf
    ensures src.Valid()
    ensures match r
            case Ok(chunk) =>
              && old(src.Unread()) == chunk + src.Unread() && |chunk| <= buf.Length
              && (|chunk| < buf.Length ==> src.Unread() == [])
            case Err(e) => e == Io && Broken in old(src.script)
    ensures Broken in src.script ==> Broken in old(src.script)
  {
    var got := ReadFull(src, buf);
    r := match got case Ok(n) => Ok(buf[..n]) case Err(e) => Err(e);
  }

  function OrEmpty(pending: Option<seq<byte>>): seq<byte> {
    match pending
    case None => []
    case Some(b) => b
  }

  /** Where the loops below stand: `rest`, held back or unread, is the pieces from `i` on, and what
      is in the destination continues to `whole`. */
  ghost predicate At(size: nat, pieces: seq<seq<byte>>, i: nat, rest: seq<byte>, out: seq<byte>, ahead: Outcome,
                     whole: Outcome) {
    && size > 0 && i < |pieces| && Chunks(size, rest) == pieces[i..]
    && out + ahead.written == whole.written && ahead.error == whole.error
  }

  /** `prev` was held back and more bytes arrived: it is piece `i`, and not the last. */
  lemma Advance(size: nat, pieces: seq<seq<byte>>, i: nat, prev: seq<byte>, unread: seq<byte>, out: seq<byte>,
                ahead: Outcome, whole: Outcome)
    requires At(size, pieces, i, prev + unread, out, ahead, whole) && |prev| == size && unread != []
    ensures i + 1 < |pieces| && pieces[i] == prev && Chunks(size, unread) == pieces[i + 1..]
  {
    var b := prev + unread;
    assert b[..size] == prev && b[size..] == unread;
    var rest := Chunks(size, unread);
    assert pieces[i..] == [prev] + rest;
    assert pieces[i + 1..] == pieces[i..][1..] == rest;
    assert pieces[i..][0] == pieces[i];
  }

  /** Nothing is unread: what was held back is the last piece. */
  lemma End(size: nat, pieces: seq<seq<byte>>, i: nat, prev: seq<byte>, out: seq<byte>, ahead: Outcome, whole: Outcome)
    requires At(size, pieces, i, prev, out, ahead, whole) && |prev| <= size
    ensures i == |pieces| - 1 && pieces[i] == prev
  {
    assert pieces[i..][0] == pieces[i];
  }

  /** Piece `i` has been processed into `piece`; a destination that fails in the middle of it still
      holds a prefix of the whole. */
  lemma Wrote(size: nat, pieces: seq<seq<byte>>, i: nat, unread: seq<byte>, out: seq<byte>, piece: seq<byte>,
              ahead: Outcome, next: Outcome, whole: Outcome)
    requires out + ahead.written == whole.written && ahead.error == whole.error
    requires ahead == Outcome(piece + next.written, next.error)
    requires size > 0 && i + 1 < |pieces| && Chunks(size, unread) == pieces[i + 1..]
    ensures At(size, pieces, i + 1, unread, out + piece, next, whole)
    ensures out + piece <= whole.written
  {
    assert (out + piece) + next.written == out + (piece + next.written);
  }

  lemma SealStep(a: Aead, header: seq<byte>, prefix: seq<byte>, size: nat, chunks: seq<seq<byte>>, i: nat,
                 prev: seq<byte>, unread: seq<byte>, out: seq<byte>, whole: Outcome)
    requires i < |chunks|
    requires At(size, chunks, i, prev + unread, out, SealFrom(a, header, prefix, chunks, i), whole)
    requires |prev| == size && unread != []
    ensures i == LAST_COUNTER ==> whole == Outcome(out, Some(SealFailed))
    ensures i != LAST_COUNTER ==>
              var seg := a.seal(Nonce(prefix, i, false), header, prev);
              && i + 1 < |chunks| && out + seg <= whole.written
              && At(size, chunks, i + 1, unread, out + seg, SealFrom(a, header, prefix, chunks, i + 1), whole)
  {
    hide Nonce;
    Advance(size, chunks, i, prev, unread, out, SealFrom(a, header, prefix, chunks, i), whole);
    if i != LAST_COUNTER {
      Wrote(size, chunks, i, unread, out, Segment(a, header, prefix, chunks, i),
            SealFrom(a, header, prefix, chunks, i), SealFrom(a, header, prefix, chunks, i + 1), whole);
    }
  }

  lemma SealEnd(a: Aead, header: seq<byte>, prefix: seq<byte>, size: nat, chunks: seq<seq<byte>>, i: nat,
                prev: seq<byte>, out: seq<byte>, whole: Outcome)
    requires i < |chunks|
    requires At(size, chunks, i, prev, out, SealFrom(a, header, prefix, chunks, i), whole) && |prev| <= size
    ensures whole == Outcome(out + a.seal(Nonce(prefix, i, true), header, prev), None)
  {
    hide Nonce;
    End(size, chunks, i, prev, out, SealFrom(a, header, prefix, chunks, i), whole);
  }

  lemma SealStart(a: Aead, prefix: seq<byte>, chunkSize: u32, plain: seq<byte>, before: seq<byte>)
    returns (whole: Outcome)
    ensures var s := Sealed(a, prefix, chunkSize, plain); whole == Outcome(before + s.written, s.error)
    ensures chunkSize == 0 ==> whole == Outcome(before, Some(Malformed))
    ensures chunkSize > 0 ==>
              var header := Header(chunkSize, prefix);
              var chunks := Chunks(chunkSize, plain);
              && At(chunkSize, chunks, 0, [] + plain, before + header, SealFrom(a, header, prefix, chunks, 0), whole)
              && before + header <= whole.written
  {
    hide Chunks, Header, SealFrom;
    var s := Sealed(a, prefix, chunkSize, plain);
    whole := Outcome(before + s.written, s.error);
    if chunkSize > 0 {
      var header := Header(chunkSize, prefix);
      var chunks := Chunks(chunkSize, plain);
      var ahead := SealFrom(a, header, prefix, chunks, 0);
      assert [] + plain == plain && chunks[0..] == chunks;
      assert (before + header) + ahead.written == before + (header + ahead.written);
    }
  }

  /** Seal `src` onto `dst`. Whatever the reads looked like, the outcome is `Sealed` of the data;
      when the source or the destination fails, what was written is a prefix of it. */
  method SealSegments(a: Aead, prefix: seq<byte>, chunkSize: u32, src: Source, dst: Sink)
    returns (error: Option<StreamError>)
    requires src.Valid()
    modifies src, dst
    ensures var s := Sealed(a, prefix, chunkSize, old(src.Unread()));
            if error == Some(Io) then
              && old(dst.out) <= dst.out <= old(dst.out) + s.written
              && (dst.room.Some? || Broken in old(src.script))
            else dst.out == old(dst.out) + s.written && error == s.error
  {
    hide BigEndian, FromBigEndian, Chunks, Header, SealFrom, Sealed, Nonce, At;
    ghost var before := dst.out;
    ghost var whole := SealStart(a, prefix, chunkSize, src.Unread(), before);
    if chunkSize == 0 { return Some(Malformed); }
    var header := Header(chunkSize, prefix);
    ghost var chunks := Chunks(chunkSize, src.Unread());
    var ok := dst.WriteAll(header);
    if !ok { return Some(Io); }

    var buf := new byte[chunkSize];
    var pending: Option<seq<byte>> := None;
    var counter := 0;
    var more := true;
    while more
      invariant src.Valid() && fresh(buf)
      invariant counter <= LAST_COUNTER && counter < |chunks|
      invariant pending == None ==> counter == 0 && more
      invariant pending.Some? && more ==> |pending.value| == chunkSize
      invariant !more ==> src.Unread() == [] && |OrEmpty(pending)| <= chunkSize
      invariant At(chunkSize, chunks, counter, OrEmpty(pending) + src.Unread(), dst.out,
                   SealFrom(a, header, prefix, chunks, counter), whole)
      invariant before <= dst.out <= whole.written
      invariant Broken in src.script ==> Broken in old(src.script)
      decreases more, |src.Unread()|
    {
      ghost var unread, was := src.Unread(), dst.out;
      var got := ReadChunk(src, buf);
      if got.Err? { return Some(Io); }
      if got.value == [] {
        more := false;
        break;
      }
      if pending.Some? {
        var prev := pending.value;
        SealStep(a, header, prefix, chunkSize, chunks, counter, prev, unread, was, whole);
        if counter == LAST_COUNTER { return Some(SealFailed); }
        ok := dst.WriteAll(a.seal(Nonce(prefix, counter, false), header, prev));
        if !ok { return Some(Io); }
        counter := counter + 1;
      } else {
        assert [] + unread == unread;
      }
      pending := Some(got.value);
      more := |got.value| == chunkSize;
    }
    assert OrEmpty(pending) + src.Unread() == OrEmpty(pending);
    SealEnd(a, header, prefix, chunkSize, chunks, counter, OrEmpty(pending), dst.out, whole);
    ok := dst.WriteAll(a.seal(Nonce(prefix, counter, true), header, OrEmpty(pending)));
    error := if ok then None else Some(Io);
  }

  lemma OpenStep(a: Aead, header: seq<byte>, prefix: seq<byte>, size: nat, segs: seq<seq<byte>>, i: nat,
                 prev: seq<byte>, unread: seq<byte>, out: seq<byte>, whole: Outcome)
    requires i < |segs|
    requires At(size, segs, i, prev + unread, out, OpenFrom(a, header, prefix, segs, i), whole)
    requires |prev| == size && unread != []
    ensures var m := a.open(Nonce(prefix, i, false), header, prev);
            if i == LAST_COUNTER || m == None then whole == Outcome(out, Some(OpenFailed))
            else
              && i + 1 < |segs| && out + m.value <= whole.written
              && At(size, segs, i + 1, unread, out + m.value, OpenFrom(a, header, prefix, segs, i + 1), whole)
  {
    hide Nonce;
    var ahead := OpenFrom(a, header, prefix, segs, i);
    Advance(size, segs, i, prev, unread, out, ahead, whole);
    var m := a.open(Nonce(prefix, i, false), header, prev);
    if i != LAST_COUNTER && m.Some? {
      Wrote(size, segs, i, unread, out, m.value, ahead, OpenFrom(a, header, prefix, segs, i + 1), whole);
    }
  }

  lemma OpenEnd(a: Aead, header: seq<byte>, prefix: seq<byte>, size: nat, segs: seq<seq<byte>>, i: nat,
                prev: seq<byte>, out: seq<byte>, whole: Outcome)
    requires i < |segs|
    requires At(size, segs, i, prev, out, OpenFrom(a, header, prefix, segs, i), whole) && |prev| <= size
    ensures match a.open(Nonce(prefix, i, true), header, prev)
            case None => whole == Outcome(out, Some(OpenFailed))
            case Some(m) => whole == Outcome(out + m, None)
  {
    hide Nonce;
    End(size, segs, i, prev, out, OpenFrom(a, header, prefix, segs, i), whole);
  }

  lemma OpenStart(a: Aead, b: seq<byte>, before: seq<byte>) returns (whole: Outcome)
    ensures var o := Opened(a, b); whole == Outcome(before + o.written, o.error)
    ensures |b| < HEADER_LEN ==> whole == Outcome(before, Some(Malformed))
    ensures |b| >= HEADER_LEN ==>
              var header, body := b[..HEADER_LEN], b[HEADER_LEN..];
              if header[0] != VERSION then whole == Outcome(before, Some(Version(header[0])))
              else if ChunkSizeOf(header) == 0 || ChunkSizeOf(header) > MAX_CHUNK_SIZE || body == [] then
                whole == Outcome(before, Some(Malformed))
              else
                var size := ChunkSizeOf(header) + TAG_LEN;
                var segs := Chunks(size, body);
                At(size, segs, 0, [] + body, before, OpenFrom(a, header, header[5..], segs, 0), whole)
  {
    hide Chunks, OpenFrom, ChunkSizeOf;
    var o := Opened(a, b);
    whole := Outcome(before + o.written, o.error);
    if |b| > HEADER_LEN {
      var body := b[HEADER_LEN..];
      assert [] + body == body;
      if 1 <= ChunkSizeOf(b[..HEADER_LEN]) {
        var segs := Chunks(ChunkSizeOf(b[..HEADER_LEN]) + TAG_LEN, body);
        assert segs[0..] == segs;
      }
    }
  }

  /** Open `src` onto `dst`. Whatever the reads looked like, the outcome is `Opened` of the data; when
      the source or the destination fails, what was written is a prefix of it. */
  method OpenSegments(a: Aead, src: Source, dst: Sink) returns (error: Option<StreamError>)
    requires src.Valid()
    modifies src, dst
    ensures var o := Opened(a, old(src.Unread()));
            if error == Some(Io) then
              && old(dst.out) <= dst.out <= old(dst.out) + o.written
              && (dst.room.Some? || Broken in old(src.script))
            else dst.out == old(dst.out) + o.written && error == o.error
  {
    hide BigEndian, FromBigEndian, Chunks, OpenFrom, Opened, Nonce, At, ChunkSizeOf;
    ghost var before := dst.out;
    ghost var b := src.Unread();
    ghost var whole := OpenStart(a, b, before);
    var headerBuf := new byte[HEADER_LEN];
    var h := ReadChunk(src, headerBuf);
    if h.Err? { return Some(Io); }
    if |h.value| != HEADER_LEN { return Some(Malformed); }
    var header := h.value;
    assert b[..HEADER_LEN] == header && b[HEADER_LEN..] == src.Unread();
    if header[0] != VERSION { return Some(Version(header[0])); }
    var chunkSize := ChunkSizeOf(header);
    if chunkSize == 0 || chunkSize > MAX_CHUNK_SIZE { return Some(Malformed); }
    var prefix := header[5..];

    var size := chunkSize + TAG_LEN;
    ghost var body := src.Unread();
    ghost var segs := Chunks(size, body);
    var buf := new byte[size];
    var pending: Option<seq<byte>> := None;
    var counter := 0;
    var more := true;
    while more
      invariant src.Valid() && fresh(buf)
      invariant counter <= LAST_COUNTER && counter < |segs|
      invariant pending == None ==> counter == 0 && src.Unread() == body && dst.out == before
      invariant pending.Some? ==> body != []
      invariant pending.Some? && more ==> |pending.value| == size
      invariant !more ==> src.Unread() == [] && |OrEmpty(pending)| <= size
      invariant body != [] ==> At(size, segs, counter, OrEmpty(pending) + src.Unread(), dst.out,
                                  OpenFrom(a, header, prefix, segs, counter), whole)
      invariant before <= dst.out <= whole.written
      invariant Broken in src.script ==> Broken in old(src.script)
      decreases more, |src.Unread()|
    {
      ghost var unread, was := src.Unread(), dst.out;
      var got := ReadChunk(src, buf);
      if got.Err? { return Some(Io); }
      if got.value == [] {
        more := false;
        break;
      }
      if pending.Some? {
        var prev := pending.value;
        OpenStep(a, header, prefix, size, segs, counter, prev, unread, was, whole);
        if counter == LAST_COUNTER { return Some(OpenFailed); }
        var m := a.open(Nonce(prefix, counter, false), header, prev);
        if m == None { return Some(OpenFailed); }
        var ok := dst.WriteAll(m.value);
        if !ok { return Some(Io); }
        counter := counter + 1;
      } else {
        assert [] + unread == unread;
      }
      pending := Some(got.value);
      more := |got.value| == size;
    }
    if pending == None { return Some(Malformed); }
    assert OrEmpty(pending) + src.Unread() == OrEmpty(pending);
    OpenEnd(a, header, prefix, size, segs, counter, pending.value, dst.out, whole);
    var m := a.open(Nonce(prefix, counter, true), header, pending.value);
    if m == None { return Some(OpenFailed); }
    var ok := dst.WriteAll(m.value);
    error := if ok then None else Some(Io);
  }
}
