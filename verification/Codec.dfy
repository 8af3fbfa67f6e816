/** The changeset wire codec of the sync engine: an encoder that appends to a byte buffer, a
    decoder that advances a cursor, and the proof that they are inverse in both directions. */
module Codec {
  import opened Wrappers
  import opened Bytes

  /** Strings are their bytes; `RowFits` below says that they are well-formed UTF-8. */
  datatype Value = Null | Integer(i: i64) | Real(bits: u64) | Text(s: seq<byte>) | Blob(b: seq<byte>)

  datatype ChangeRow = ChangeRow(
    table: seq<byte>, pk: seq<byte>, cid: seq<byte>, val: Value,
    colVersion: i64, dbVersion: i64, siteId: Option<seq<byte>>, cl: i64, seqNo: i64)

  datatype CodecError =
    | TruncatedHeader | TruncatedLength | TruncatedBytes | TruncatedI64 | TruncatedU8
    | NotUtf8 | BadValueTag(tag: byte) | BadSiteTag(tag: byte)

  /** The row-level (create/delete) pseudo column: "-1". */
  const SENTINEL_CID: seq<byte> := [0x2D, 0x31]

  // ---- What the encoder writes ------------------------------------------------------------

  /** A `u32` length prefix, truncated as the cast in the source truncates it, then the bytes. */
  function BytesField(b: seq<byte>): seq<byte> { BigEndian(|b| % TWO_32, 4) + b }

  function IntField(i: i64): seq<byte> { BigEndian(Bits64(i), 8) }

  function ValueField(v: Value): seq<byte> {
    match v
    case Null => [0]
    case Integer(i) => [1] + IntField(i)
    case Real(bits) => [2] + BigEndian(bits, 8)
    case Text(s) => [3] + BytesField(s)
    case Blob(b) => [4] + BytesField(b)
  }

  function SiteField(s: Option<seq<byte>>): seq<byte> {
    match s
    case None => [0]
    case Some(b) => [1] + BytesField(b)
  }

  function RowFields(r: ChangeRow): seq<byte> {
    BytesField(r.table) + (BytesField(r.pk) + (BytesField(r.cid) + (ValueField(r.val) +
    (IntField(r.colVersion) + (IntField(r.dbVersion) + (SiteField(r.siteId) +
    (IntField(r.cl) + IntField(r.seqNo))))))))
  }

  function RowsFields(rows: seq<ChangeRow>): seq<byte> {
    if rows == [] then [] else RowFields(rows[0]) + RowsFields(rows[1..])
  }

  function Encoded(rows: seq<ChangeRow>): seq<byte> {
    BigEndian(|rows| % TWO_32, 4) + RowsFields(rows)
  }

  predicate ValueFits(v: Value) {
    match v
    case Text(s) => |s| < TWO_32 && ValidUtf8(s)
    case Blob(b) => |b| < TWO_32
    case _ => true
  }

  predicate RowFits(r: ChangeRow) {
    && |r.table| < TWO_32 && |r.pk| < TWO_32 && |r.cid| < TWO_32 && ValueFits(r.val)
    && (r.siteId.Some? ==> |r.siteId.value| < TWO_32)
    && ValidUtf8(r.table) && ValidUtf8(r.cid)
  }

  /** Every length in the changeset, and its row count, fits the four-byte prefix; its strings
      are UTF-8, as every Rust `String` is. */
  predicate Fits(rows: seq<ChangeRow>) {
    |rows| < TWO_32 && forall r :: r in rows ==> RowFits(r)
  }

  // ---- What the decoder accepts, as a parser over the unread suffix ------------------------

  datatype Parsed<+T> = Fail(error: CodecError) | Got(value: T, rest: seq<byte>) {
    predicate IsFailure() { Fail? }
    function PropagateFailure<U>(): Parsed<U> requires Fail? { Fail(error) }
    function Extract(): (T, seq<byte>) requires Got? { (value, rest) }
  }

  function ParseBytes(b: seq<byte>): Parsed<seq<byte>> {
    if |b| < 4 then Fail(TruncatedLength)
    else
      var len := FromBigEndian(b[..4]);
      if |b| < 4 + len then Fail(TruncatedBytes) else Got(b[4..4 + len], b[4 + len..])
  }

  function ParseText(b: seq<byte>): Parsed<seq<byte>> {
    var (s, rest) :- ParseBytes(b);
    if ValidUtf8(s) then Got(s, rest) else Fail(NotUtf8)
  }

  function ParseBits(b: seq<byte>): (p: Parsed<u64>) {
    if |b| < 8 then Fail(TruncatedI64)
    else
      BackThenBigEndian(b[..8]); Pow256Values();
      Got(FromBigEndian(b[..8]), b[8..])
  }

  function ParseInt(b: seq<byte>): Parsed<i64> {
    var (bits, rest) :- ParseBits(b);
    Got(Signed64(bits), rest)
  }

  function ParseTag(b: seq<byte>): Parsed<byte> {
    if |b| < 1 then Fail(TruncatedU8) else Got(b[0], b[1..])
  }

  function ParseValue(b: seq<byte>): Parsed<Value> {
    var (tag, b1) :- ParseTag(b);
    match tag
    case 0 => Got(Null, b1)
    case 1 => var (i, b2) :- ParseInt(b1); Got(Integer(i), b2)
    case 2 => var (bits, b2) :- ParseBits(b1); Got(Real(bits), b2)
    case 3 => var (s, b2) :- ParseText(b1); Got(Text(s), b2)
    case 4 => var (s, b2) :- ParseBytes(b1); Got(Blob(s), b2)
    case other => Fail(BadValueTag(other))
  }

  function ParseSite(b: seq<byte>): Parsed<Option<seq<byte>>> {
    var (tag, b1) :- ParseTag(b);
    match tag
    case 0 => Got(None, b1)
    case 1 => var (s, b2) :- ParseBytes(b1); Got(Some(s), b2)
    case other => Fail(BadSiteTag(other))
  }

  function ParseRow(b: seq<byte>): Parsed<ChangeRow> {
    var (table, b1) :- ParseText(b);
    var (pk, b2) :- ParseBytes(b1);
    var (cid, b3) :- ParseText(b2);
    var (val, b4) :- ParseValue(b3);
    var (colVersion, b5) :- ParseInt(b4);
    var (dbVersion, b6) :- ParseInt(b5);
    var (siteId, b7) :- ParseSite(b6);
    var (cl, b8) :- ParseInt(b7);
    var (seqNo, b9) :- ParseInt(b8);
    Got(ChangeRow(table, pk, cid, val, colVersion, dbVersion, siteId, cl, seqNo), b9)
  }

  function ParseRows(b: seq<byte>, n: nat): Parsed<seq<ChangeRow>>
    decreases n
  {
    if n == 0 then Got([], b)
    else
      var (r, b1) :- ParseRow(b);
      var (rs, b2) :- ParseRows(b1, n - 1);
      Got([r] + rs, b2)
  }

  /** The parse behind `Decode`; `rest` is what the decoder leaves unread and ignores. */
  function ParseChangeset(b: seq<byte>): Parsed<seq<ChangeRow>> {
    if |b| < 4 then Fail(TruncatedHeader) else ParseRows(b[4..], FromBigEndian(b[..4]))
  }

  function Decoded(b: seq<byte>): Result<seq<ChangeRow>, CodecError> {
    match ParseChangeset(b)
    case Fail(e) => Err(e)
    case Got(rows, _) => Ok(rows)
  }

  // ---- Field by field: a parse succeeds exactly on the field's encoding --------------------

  lemma BytesComplete(x: seq<byte>, rest: seq<byte>)
    requires |x| < TWO_32
    ensures ParseBytes(BytesField(x) + rest) == Got(x, rest)
  {
    hide BigEndian, FromBigEndian;
    var b := BytesField(x) + rest;
    Pow256Values();
    BigEndianThenBack(|x|, 4);
    assert b[..4] == BigEndian(|x|, 4);
    assert b[4..4 + |x|] == x;
  }

  lemma BytesExact(b: seq<byte>, x: seq<byte>, rest: seq<byte>)
    ensures ParseBytes(b) == Got(x, rest) <==> |x| < TWO_32 && b == BytesField(x) + rest
  {
    hide BigEndian, FromBigEndian;
    Pow256Values();
    if |x| < TWO_32 && b == BytesField(x) + rest {
      BytesComplete(x, rest);
    }
    if ParseBytes(b) == Got(x, rest) {
      BackThenBigEndian(b[..4]);
      assert b == b[..4] + b[4..4 + |x|] + b[4 + |x|..];
    }
  }

  lemma BitsExact(b: seq<byte>, x: u64, rest: seq<byte>)
    ensures ParseBits(b) == Got(x, rest) <==> b == BigEndian(x, 8) + rest
  {
    Pow256Values();
    if b == BigEndian(x, 8) + rest {
      BigEndianThenBack(x, 8);
      assert b[..8] == BigEndian(x, 8);
    }
    if ParseBits(b) == Got(x, rest) {
      BackThenBigEndian(b[..8]);
      assert b == b[..8] + b[8..];
    }
  }

  lemma IntExact(b: seq<byte>, i: i64, rest: seq<byte>)
    ensures ParseInt(b) == Got(i, rest) <==> b == IntField(i) + rest
  {
    BitsExact(b, Bits64(i), rest);
    if ParseBits(b).Got? {
      assert Signed64(ParseBits(b).value) == i <==> ParseBits(b).value == Bits64(i);
    }
  }

  lemma TagExact(b: seq<byte>, tag: byte, x: seq<byte>, rest: seq<byte>)
    ensures b == ([tag] + x) + rest <==> ParseTag(b) == Got(tag, x + rest)
  {
    if b != [] {
      assert b == [b[0]] + b[1..];
    }
    assert ([tag] + x) + rest == [tag] + (x + rest);
  }

  lemma ValueComplete(v: Value, rest: seq<byte>)
    requires ValueFits(v)
    ensures ParseValue(ValueField(v) + rest) == Got(v, rest)
  {
    match v
    case Null => TagExact([0] + [] + rest, 0, [], rest);
    case Integer(i) =>
      TagExact(ValueField(v) + rest, 1, IntField(i), rest);
      IntExact(IntField(i) + rest, i, rest);
    case Real(bits) =>
      TagExact(ValueField(v) + rest, 2, BigEndian(bits, 8), rest);
      BitsExact(BigEndian(bits, 8) + rest, bits, rest);
    case Text(s) =>
      TagExact(ValueField(v) + rest, 3, BytesField(s), rest);
      BytesExact(BytesField(s) + rest, s, rest);
    case Blob(s) =>
      TagExact(ValueField(v) + rest, 4, BytesField(s), rest);
      BytesExact(BytesField(s) + rest, s, rest);
  }

  lemma ValueSound(b: seq<byte>)
    requires ParseValue(b).Got?
    ensures ValueFits(ParseValue(b).value) && b == ValueField(ParseValue(b).value) + ParseValue(b).rest
  {
    var b1 := b[1..];
    assert b == [b[0]] + b1;
    var Got(v, rest) := ParseValue(b);
    match v
    case Null => TagExact(b, 0, [], rest);
    case Integer(i) =>
      IntExact(b1, i, rest);
      TagExact(b, 1, IntField(i), rest);
    case Real(bits) =>
      BitsExact(b1, bits, rest);
      TagExact(b, 2, BigEndian(bits, 8), rest);
    case Text(s) =>
      BytesExact(b1, s, rest);
      TagExact(b, 3, BytesField(s), rest);
    case Blob(s) =>
      BytesExact(b1, s, rest);
      TagExact(b, 4, BytesField(s), rest);
  }

  lemma SiteComplete(s: Option<seq<byte>>, rest: seq<byte>)
    requires s.Some? ==> |s.value| < TWO_32
    ensures ParseSite(SiteField(s) + rest) == Got(s, rest)
  {
    match s
    case None => TagExact(SiteField(s) + rest, 0, [], rest);
    case Some(x) =>
      TagExact(SiteField(s) + rest, 1, BytesField(x), rest);
      BytesExact(BytesField(x) + rest, x, rest);
  }

  lemma SiteSound(b: seq<byte>)
    requires ParseSite(b).Got?
    ensures ParseSite(b).value.Some? ==> |ParseSite(b).value.value| < TWO_32
    ensures b == SiteField(ParseSite(b).value) + ParseSite(b).rest
  {
    var b1 := b[1..];
    assert b == [b[0]] + b1;
    var Got(s, rest) := ParseSite(b);
    match s
    case None => TagExact(b, 0, [], rest);
    case Some(x) =>
      BytesExact(b1, x, rest);
      TagExact(b, 1, BytesField(x), rest);
  }

  // ---- Rows and changesets ------------------------------------------------------------------

  lemma Reassociate(a: seq<byte>, b: seq<byte>, rest: seq<byte>)
    ensures (a + b) + rest == a + (b + rest)
  {
  }

  lemma RowComplete(r: ChangeRow, rest: seq<byte>)
    requires RowFits(r)
    ensures ParseRow(RowFields(r) + rest) == Got(r, rest)
  {
    var t8 := IntField(r.cl) + IntField(r.seqNo);
    var t7 := SiteField(r.siteId) + t8;
    var t6 := IntField(r.dbVersion) + t7;
    var t5 := IntField(r.colVersion) + t6;
    var t4 := ValueField(r.val) + t5;
    var t3 := BytesField(r.cid) + t4;
    var t2 := BytesField(r.pk) + t3;
    Reassociate(BytesField(r.table), t2, rest);
    BytesExact(RowFields(r) + rest, r.table, t2 + rest);
    Reassociate(BytesField(r.pk), t3, rest);
    BytesExact(t2 + rest, r.pk, t3 + rest);
    Reassociate(BytesField(r.cid), t4, rest);
    BytesExact(t3 + rest, r.cid, t4 + rest);
    Reassociate(ValueField(r.val), t5, rest);
    ValueComplete(r.val, t5 + rest);
    Reassociate(IntField(r.colVersion), t6, rest);
    IntExact(t5 + rest, r.colVersion, t6 + rest);
    Reassociate(IntField(r.dbVersion), t7, rest);
    IntExact(t6 + rest, r.dbVersion, t7 + rest);
    Reassociate(SiteField(r.siteId), t8, rest);
    SiteComplete(r.siteId, t8 + rest);
    Reassociate(IntField(r.cl), IntField(r.seqNo), rest);
    IntExact(t8 + rest, r.cl, IntField(r.seqNo) + rest);
    IntExact(IntField(r.seqNo) + rest, r.seqNo, rest);
  }

  lemma RowSound(b: seq<byte>)
    requires ParseRow(b).Got?
    ensures RowFits(ParseRow(b).value) && b == RowFields(ParseRow(b).value) + ParseRow(b).rest
  {
    var Got(r, b9) := ParseRow(b);
    var b1 := ParseText(b).rest;
    var b2 := ParseBytes(b1).rest;
    var b3 := ParseText(b2).rest;
    var b4 := ParseValue(b3).rest;
    var b5 := ParseInt(b4).rest;
    var b6 := ParseInt(b5).rest;
    var b7 := ParseSite(b6).rest;
    var b8 := ParseInt(b7).rest;
    var t8 := IntField(r.cl) + IntField(r.seqNo);
    var t7 := SiteField(r.siteId) + t8;
    var t6 := IntField(r.dbVersion) + t7;
    var t5 := IntField(r.colVersion) + t6;
    var t4 := ValueField(r.val) + t5;
    var t3 := BytesField(r.cid) + t4;
    var t2 := BytesField(r.pk) + t3;
    IntExact(b8, r.seqNo, b9);
    IntExact(b7, r.cl, b8);
    Reassociate(IntField(r.cl), IntField(r.seqNo), b9);
    SiteSound(b6);
    Reassociate(SiteField(r.siteId), t8, b9);
    IntExact(b5, r.dbVersion, b6);
    Reassociate(IntField(r.dbVersion), t7, b9);
    IntExact(b4, r.colVersion, b5);
    Reassociate(IntField(r.colVersion), t6, b9);
    ValueSound(b3);
    Reassociate(ValueField(r.val), t5, b9);
    BytesExact(b2, r.cid, b3);
    Reassociate(BytesField(r.cid), t4, b9);
    BytesExact(b1, r.pk, b2);
    Reassociate(BytesField(r.pk), t3, b9);
    BytesExact(b, r.table, b1);
    Reassociate(BytesField(r.table), t2, b9);
  }

  lemma {:induction false} RowsComplete(rows: seq<ChangeRow>, rest: seq<byte>)
    requires forall r :: r in rows ==> RowFits(r)
    ensures ParseRows(RowsFields(rows) + rest, |rows|) == Got(rows, rest)
  {
    if rows == [] {
      assert RowsFields(rows) + rest == rest;
    } else {
      var more := RowsFields(rows[1..]);
      Reassociate(RowFields(rows[0]), more, rest);
      RowComplete(rows[0], more + rest);
      RowsComplete(rows[1..], rest);
      assert [rows[0]] + rows[1..] == rows;
    }
  }

  lemma {:induction false} RowsSound(b: seq<byte>, n: nat)
    requires ParseRows(b, n).Got?
    ensures var Got(rows, rest) := ParseRows(b, n);
            && |rows| == n && (forall r :: r in rows ==> RowFits(r))
            && b == RowsFields(rows) + rest
    decreases n
  {
    hide ParseRow, RowFields, RowFits;
    var Got(rows, rest) := ParseRows(b, n);
    if n == 0 {
      assert b == RowsFields(rows) + rest;
    } else {
      var Got(r, b1) := ParseRow(b);
      RowSound(b);
      RowsSound(b1, n - 1);
      var rs := ParseRows(b1, n - 1).value;
      assert rows[1..] == rs && rows[0] == r;
      Reassociate(RowFields(r), RowsFields(rs), rest);
    }
  }

  /** The four-byte row count in front of a blob, in both directions. */
  lemma HeaderExact(b: seq<byte>, n: nat, body: seq<byte>)
    ensures n < TWO_32 && b == BigEndian(n, 4) + body <==>
            |b| >= 4 && FromBigEndian(b[..4]) == n && b[4..] == body
  {
    Pow256Values();
    if n < TWO_32 && b == BigEndian(n, 4) + body {
      BigEndianThenBack(n, 4);
      assert b[..4] == BigEndian(n, 4);
    }
    if |b| >= 4 && FromBigEndian(b[..4]) == n && b[4..] == body {
      BackThenBigEndian(b[..4]);
      assert b == b[..4] + b[4..];
    }
  }

  /** Whatever the decoder accepts is the encoding of what it returns, followed by the bytes it
      did not read. */
  lemma DecodeThenEncode(b: seq<byte>)
    requires ParseChangeset(b).Got?
    ensures Fits(ParseChangeset(b).value)
    ensures b == Encoded(ParseChangeset(b).value) + ParseChangeset(b).rest
  {
    hide ParseRows, RowsFields;
    var Got(rows, rest) := ParseChangeset(b);
    var n := FromBigEndian(b[..4]);
    HeaderExact(b, n, b[4..]);
    RowsSound(b[4..], n);
    Reassociate(BigEndian(n, 4), RowsFields(rows), rest);
  }

  /** Decoding an encoded changeset, whatever follows it, gives the changeset back exactly when
      its row count and every field length fit the four-byte prefixes. */
  lemma EncodeThenDecode(rows: seq<ChangeRow>, tail: seq<byte>)
    ensures ParseChangeset(Encoded(rows) + tail) == Got(rows, tail) <==> Fits(rows)
  {
    if Fits(rows) {
      FitsDecodes(rows, tail);
    }
    if ParseChangeset(Encoded(rows) + tail).Got? {
      DecodeThenEncode(Encoded(rows) + tail);
    }
  }

  lemma FitsDecodes(rows: seq<ChangeRow>, tail: seq<byte>)
    requires Fits(rows)
    ensures ParseChangeset(Encoded(rows) + tail) == Got(rows, tail)
  {
    hide ParseRows, RowsFields;
    var n := |rows|;
    Reassociate(BigEndian(n, 4), RowsFields(rows), tail);
    HeaderExact(Encoded(rows) + tail, n, RowsFields(rows) + tail);
    RowsComplete(rows, tail);
  }

  /** No two changesets that fit share an encoding, even when one is followed by more bytes. */
  lemma EncodingIsPrefixFree(x: seq<ChangeRow>, y: seq<ChangeRow>, tail: seq<byte>)
    requires Fits(x) && Fits(y)
    requires Encoded(x) == Encoded(y) + tail
    ensures x == y && tail == []
  {
    EncodeThenDecode(x, []);
    EncodeThenDecode(y, tail);
    assert Encoded(x) + [] == Encoded(x);
  }

  lemma FieldsInOrder(start: seq<byte>, front: seq<byte>, end: seq<byte>, r: ChangeRow)
    requires front == start + BytesField(r.table) + BytesField(r.pk) + BytesField(r.cid) + ValueField(r.val)
    requires end == front + IntField(r.colVersion) + IntField(r.dbVersion) + SiteField(r.siteId)
                    + IntField(r.cl) + IntField(r.seqNo)
    ensures end == start + RowFields(r)
  {
    var t8 := IntField(r.cl) + IntField(r.seqNo);
    var t6 := IntField(r.dbVersion) + (SiteField(r.siteId) + t8);
    var t4 := ValueField(r.val) + (IntField(r.colVersion) + t6);
    FourInOrder(front, IntField(r.colVersion), IntField(r.dbVersion), SiteField(r.siteId), t8);
    Reassociate(front + IntField(r.colVersion) + IntField(r.dbVersion) + SiteField(r.siteId),
                IntField(r.cl), IntField(r.seqNo));
    FourInOrder(start, BytesField(r.table), BytesField(r.pk), BytesField(r.cid), t4);
    Reassociate(start + BytesField(r.table) + BytesField(r.pk) + BytesField(r.cid),
                ValueField(r.val), IntField(r.colVersion) + t6);
  }

  lemma FourInOrder(s: seq<byte>, a: seq<byte>, b: seq<byte>, c: seq<byte>, d: seq<byte>)
    ensures s + a + b + c + d == s + (a + (b + (c + d)))
  {
  }

  /** The wire format of the tagged fields: one tag byte, then the payload. */
  lemma TagsOnTheWire(v: Value, s: Option<seq<byte>>)
    ensures match v
            case Null => ValueField(v) == [0]
            case Integer(i) =>
              |ValueField(v)| == 9 && ValueField(v)[0] == 1 && ParseInt(ValueField(v)[1..]) == Got(i, [])
            case Real(bits) =>
              |ValueField(v)| == 9 && ValueField(v)[0] == 2 && FromBigEndian(ValueField(v)[1..]) == bits
            case Text(t) => |ValueField(v)| == 5 + |t| && ValueField(v)[0] == 3 && ValueField(v)[5..] == t
            case Blob(t) => |ValueField(v)| == 5 + |t| && ValueField(v)[0] == 4 && ValueField(v)[5..] == t
    ensures SiteField(s)[0] == if s.None? then 0 else 1
  {
    match v
    case Integer(i) => IntExact(ValueField(v)[1..], i, []); assert IntField(i) + [] == IntField(i);
    case Real(bits) =>
      assert ValueField(v)[1..] == BigEndian(bits, 8);
      Pow256Values();
      BigEndianThenBack(bits, 8);
    case _ =>
  }

  /** A number of one byte, with its leading zeros. */
  lemma {:induction false} SmallNumber(n: byte, k: nat)
    requires k > 0
    ensures BigEndian(n, k)[k - 1] == n && forall i :: 0 <= i < k - 1 ==> BigEndian(n, k)[i] == 0
  {
    if k > 1 {
      SmallNumber(0, k - 1);
    }
  }

  predicate Short(b: seq<byte>) { |b| < 256 }

  /** A row byte for byte, for fields short enough for their lengths and numbers to take one byte: the row
      count, then the table, the key, the column, the tagged value, the column version, the database version,
      the tagged site, the causal length and the sequence number, each number with its leading zeros. */
  lemma RowOnTheWire(r: ChangeRow)
    requires Short(r.table) && Short(r.pk) && Short(r.cid) && r.val.Text? && Short(r.val.s)
    requires r.siteId.Some? && Short(r.siteId.value)
    requires 0 <= r.colVersion < 256 && 0 <= r.dbVersion < 256 && 0 <= r.cl < 256 && 0 <= r.seqNo < 256
    ensures Encoded([r]) ==
            [0, 0, 0, 1]
            + (([0, 0, 0, |r.table|] + r.table) + (([0, 0, 0, |r.pk|] + r.pk) + (([0, 0, 0, |r.cid|] + r.cid)
            + (([3] + ([0, 0, 0, |r.val.s|] + r.val.s))
            + ([0, 0, 0, 0, 0, 0, 0, r.colVersion] + ([0, 0, 0, 0, 0, 0, 0, r.dbVersion]
            + (([1] + ([0, 0, 0, |r.siteId.value|] + r.siteId.value))
            + ([0, 0, 0, 0, 0, 0, 0, r.cl] + [0, 0, 0, 0, 0, 0, 0, r.seqNo]))))))))
  {
    hide BigEndian, BytesField, IntField, ValueField, SiteField, RowFields, RowsFields;
    ShortField(r.table);
    ShortField(r.pk);
    ShortField(r.cid);
    SmallInt(r.colVersion);
    SmallInt(r.dbVersion);
    SmallInt(r.cl);
    SmallInt(r.seqNo);
    ShortText(r.val.s);
    ShortSite(r.siteId.value);
    SmallNumber(1, 4);
    assert BigEndian(1, 4) == [0, 0, 0, 1];
    InOrder(r);
    OneRow(r);
  }

  lemma InOrder(r: ChangeRow)
    ensures RowFields(r) ==
            BytesField(r.table) + (BytesField(r.pk) + (BytesField(r.cid) + (ValueField(r.val)
            + (IntField(r.colVersion) + (IntField(r.dbVersion) + (SiteField(r.siteId)
            + (IntField(r.cl) + IntField(r.seqNo))))))))
  {
  }

  lemma ShortText(b: seq<byte>)
    requires |b| < 256
    ensures ValueField(Text(b)) == [3] + ([0, 0, 0, |b|] + b)
  {
    ShortField(b);
  }

  lemma ShortSite(b: seq<byte>)
    requires |b| < 256
    ensures SiteField(Some(b)) == [1] + ([0, 0, 0, |b|] + b)
  {
    ShortField(b);
  }

  lemma OneRow(r: ChangeRow)
    ensures RowsFields([r]) == RowFields(r)
  {
    hide RowFields;
    assert [r][1..] == [];
    assert RowsFields([r]) == RowFields(r) + RowsFields([]);
  }

  lemma ShortField(b: seq<byte>)
    requires |b| < 256
    ensures BytesField(b) == [0, 0, 0, |b|] + b
  {
    SmallNumber(|b|, 4);
    hide BigEndian;
    assert BigEndian(|b|, 4) == [0, 0, 0, |b|];
  }

  lemma SmallInt(n: byte)
    ensures IntField(n) == [0, 0, 0, 0, 0, 0, 0, n]
  {
    SmallNumber(n, 8);
    hide BigEndian;
    assert BigEndian(n, 8) == [0, 0, 0, 0, 0, 0, 0, n];
  }

  // ---- The encoder and the decoder as the program runs them ---------------------------------

  /** The growing output vector. */
  class Encoder {
    var out: seq<byte>

    constructor ()
      ensures out == []
    {
      out := [];
    }

    method PutBytes(b: seq<byte>)
      modifies this
      ensures out == old(out) + BytesField(b)
    {
      out := out + BigEndian(|b| % TWO_32, 4);
      out := out + b;
    }

    method PutValue(v: Value)
      modifies this
      ensures out == old(out) + ValueField(v)
    {
      hide BigEndian, IntField, BytesField;
      ghost var before := out;
      match v {
        case Null => out := out + [0];
        case Integer(i) =>
          Reassociate(before, [1], IntField(i));
          out := out + [1];
          out := out + IntField(i);
        case Real(bits) =>
          Reassociate(before, [2], BigEndian(bits, 8));
          out := out + [2];
          out := out + BigEndian(bits, 8);
        case Text(s) =>
          Reassociate(before, [3], BytesField(s));
          out := out + [3];
          PutBytes(s);
        case Blob(b) =>
          Reassociate(before, [4], BytesField(b));
          out := out + [4];
          PutBytes(b);
      }
    }

    method PutSite(s: Option<seq<byte>>)
      modifies this
      ensures out == old(out) + SiteField(s)
    {
      match s {
        case None => out := out + [0];
        case Some(b) => out := out + [1]; PutBytes(b);
      }
    }

    method PutRow(r: ChangeRow)
      modifies this
      ensures out == old(out) + RowFields(r)
    {
      PutBytes(r.table);
      PutBytes(r.pk);
      PutBytes(r.cid);
      PutValue(r.val);
      ghost var front := out;
      out := out + IntField(r.colVersion);
      out := out + IntField(r.dbVersion);
      PutSite(r.siteId);
      out := out + IntField(r.cl);
      out := out + IntField(r.seqNo);
      FieldsInOrder(old(out), front, out, r);
    }

    method PutChangeset(rows: seq<ChangeRow>)
      modifies this
      ensures out == old(out) + Encoded(rows)
    {
      ghost var before := out;
      out := out + BigEndian(|rows| % TWO_32, 4);
      ghost var header := out;
      for i := 0 to |rows|
        invariant out + RowsFields(rows[i..]) == header + RowsFields(rows)
      {
        ghost var start := out;
        PutRow(rows[i]);
        assert rows[i..][1..] == rows[i + 1..];
        Reassociate(start, RowFields(rows[i]), RowsFields(rows[i + 1..]));
      }
      assert rows[|rows|..] == [];
      Reassociate(before, BigEndian(|rows| % TWO_32, 4), RowsFields(rows));
    }
  }

  lemma SliceOfSuffix(s: seq<byte>, p: nat, i: nat, j: nat)
    requires p <= p + i <= p + j <= |s|
    ensures s[p..][i..j] == s[p + i..p + j]
  {
  }

  /** The read position over a received blob. */
  class Cursor {
    const buf: seq<byte>
    var pos: nat

    ghost predicate Valid() reads this { pos <= |buf| }

    ghost function Unread(): seq<byte> reads this requires Valid() { buf[pos..] }

    constructor (b: seq<byte>)
      ensures Valid() && buf == b && pos == 0
    {
      buf, pos := b, 0;
    }

    /** `r` and the new position are what parsing the unread bytes as `p` says. */
    ghost predicate Follows<T>(r: Result<T, CodecError>, p: Parsed<T>)
      reads this
    {
      && Valid()
      && match p
         case Got(v, rest) => r == Ok(v) && Unread() == rest
         case Fail(e) => r == Err(e)
    }

    method TakeBytes() returns (r: Result<seq<byte>, CodecError>)
      requires Valid()
      modifies this`pos
      ensures Follows(r, ParseBytes(old(Unread())))
    {
      hide FromBigEndian;
      ghost var b := Unread();
      if |buf| < pos + 4 { return Err(TruncatedLength); }
      SliceOfSuffix(buf, pos, 0, 4);
      var len := FromBigEndian(buf[pos..pos + 4]);
      pos := pos + 4;
      if |buf| < pos + len { return Err(TruncatedBytes); }
      SliceOfSuffix(buf, old(pos), 4, 4 + len);
      r := Ok(buf[pos..pos + len]);
      pos := pos + len;
      assert Unread() == b[4 + len..];
    }

    method TakeText() returns (r: Result<seq<byte>, CodecError>)
      requires Valid()
      modifies this`pos
      ensures Follows(r, ParseText(old(Unread())))
    {
      var s := TakeBytes();
      match s
      case Err(e) => r := Err(e);
      case Ok(v) => r := if ValidUtf8(v) then Ok(v) else Err(NotUtf8);
    }

    method TakeBits() returns (r: Result<u64, CodecError>)
      requires Valid()
      modifies this`pos
      ensures Follows(r, ParseBits(old(Unread())))
    {
      ghost var b := Unread();
      if |buf| < pos + 8 { return Err(TruncatedI64); }
      SliceOfSuffix(buf, pos, 0, 8);
      BackThenBigEndian(b[..8]);
      Pow256Values();
      r := Ok(FromBigEndian(buf[pos..pos + 8]));
      pos := pos + 8;
      assert Unread() == b[8..];
    }

    method TakeI64() returns (r: Result<i64, CodecError>)
      requires Valid()
      modifies this`pos
      ensures Follows(r, ParseInt(old(Unread())))
    {
      var bits := TakeBits();
      r := match bits case Err(e) => Err(e) case Ok(v) => Ok(Signed64(v));
    }

    method TakeU8() returns (r: Result<byte, CodecError>)
      requires Valid()
      modifies this`pos
      ensures Follows(r, ParseTag(old(Unread())))
    {
      if |buf| < pos + 1 { return Err(TruncatedU8); }
      r := Ok(buf[pos]);
      pos := pos + 1;
    }

    method TakeValue() returns (r: Result<Value, CodecError>)
      requires Valid()
      modifies this`pos
      ensures Follows(r, ParseValue(old(Unread())))
    {
      var t := TakeU8();
      if t.Err? { return Err(t.error); }
      match t.value {
        case 0 => r := Ok(Null);
        case 1 => var i := TakeI64(); r := match i case Err(e) => Err(e) case Ok(v) => Ok(Integer(v));
        case 2 => var u := TakeBits(); r := match u case Err(e) => Err(e) case Ok(v) => Ok(Real(v));
        case 3 => var s := TakeText(); r := match s case Err(e) => Err(e) case Ok(v) => Ok(Text(v));
        case 4 => var s := TakeBytes(); r := match s case Err(e) => Err(e) case Ok(v) => Ok(Blob(v));
        case other => r := Err(BadValueTag(other));
      }
    }

    method TakeSite() returns (r: Result<Option<seq<byte>>, CodecError>)
      requires Valid()
      modifies this`pos
      ensures Follows(r, ParseSite(old(Unread())))
    {
      var t := TakeU8();
      if t.Err? { return Err(t.error); }
      match t.value {
        case 0 => r := Ok(None);
        case 1 => var s := TakeBytes(); r := match s case Err(e) => Err(e) case Ok(v) => Ok(Some(v));
        case other => r := Err(BadSiteTag(other));
      }
    }

    method TakeRow() returns (r: Result<ChangeRow, CodecError>)
      requires Valid()
      modifies this`pos
      ensures Follows(r, ParseRow(old(Unread())))
    {
      var table := TakeText();
      if table.Err? { return Err(table.error); }
      var pk := TakeBytes();
      if pk.Err? { return Err(pk.error); }
      var cid := TakeText();
      if cid.Err? { return Err(cid.error); }
      var val := TakeValue();
      if val.Err? { return Err(val.error); }
      var colVersion := TakeI64();
      if colVersion.Err? { return Err(colVersion.error); }
      var dbVersion := TakeI64();
      if dbVersion.Err? { return Err(dbVersion.error); }
      var siteId := TakeSite();
      if siteId.Err? { return Err(siteId.error); }
      var cl := TakeI64();
      if cl.Err? { return Err(cl.error); }
      var seqNo := TakeI64();
      if seqNo.Err? { return Err(seqNo.error); }
      r := Ok(ChangeRow(table.value, pk.value, cid.value, val.value, colVersion.value,
                        dbVersion.value, siteId.value, cl.value, seqNo.value));
    }
  }

  function Prepend(rows: seq<ChangeRow>, p: Parsed<seq<ChangeRow>>): Parsed<seq<ChangeRow>> {
    match p
    case Fail(e) => Fail(e)
    case Got(more, rest) => Got(rows + more, rest)
  }

  lemma PrependNothing(p: Parsed<seq<ChangeRow>>)
    ensures Prepend([], p) == p
  {
    if p.Got? {
      assert [] + p.value == p.value;
    }
  }

  lemma OneRowMore(rows: seq<ChangeRow>, b: seq<byte>, n: nat)
    requires n > 0
    ensures Prepend(rows, ParseRows(b, n)) ==
            match ParseRow(b)
            case Fail(e) => Fail(e)
            case Got(r, rest) => Prepend(rows + [r], ParseRows(rest, n - 1))
  {
    if ParseRow(b).Got? {
      var Got(r, rest) := ParseRow(b);
      var p := ParseRows(rest, n - 1);
      if p.Got? {
        assert rows + ([r] + p.value) == rows + [r] + p.value;
      }
    }
  }

  /** Encode a changeset. */
  method Encode(rows: seq<ChangeRow>) returns (b: seq<byte>)
    ensures b == Encoded(rows)
    ensures Decoded(b) == Ok(rows) <==> Fits(rows)
  {
    var e := new Encoder();
    e.PutChangeset(rows);
    b := e.out;
    EncodeThenDecode(rows, []);
    assert b + [] == b;
    if Decoded(b) == Ok(rows) {
      DecodeThenEncode(b);
    }
  }

  /** Decode a blob; bytes after the announced rows are ignored. */
  method Decode(b: seq<byte>) returns (r: Result<seq<ChangeRow>, CodecError>)
    ensures r == Decoded(b)
  {
    hide ParseRow;
    if |b| < 4 { return Err(TruncatedHeader); }
    assert b[0..4] == b[..4];
    var n := FromBigEndian(b[0..4]);
    var c := new Cursor(b);
    c.pos := c.pos + 4;
    var rows: seq<ChangeRow> := [];
    PrependNothing(ParseChangeset(b));
    for i := 0 to n
      invariant c.Valid() && c.buf == b
      invariant ParseChangeset(b) == Prepend(rows, ParseRows(c.Unread(), n - i))
    {
      ghost var unread := c.Unread();
      var row := c.TakeRow();
      OneRowMore(rows, unread, n - i);
      if row.Err? { return Err(row.error); }
      rows := rows + [row.value];
    }
    r := Ok(rows);
    assert rows + [] == rows;
  }
}
