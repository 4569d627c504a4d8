/** Sizing, encoding, decoding and re-merging of record batches
    (Message Format: Record Batch and Record, section 5.3 of the Apache Kafka documentation). */
module RecordBatches {
  import opened Basics
  import opened Wire

  /** A nil key or value is distinct from an empty one on the wire. */
  type Blob = Option<Bytes>

  datatype Header = Header(key: Bytes, value: Blob)

  /** The fields of a record that a batch carries; timestamps have millisecond resolution. */
  datatype Record = Record(key: Blob, value: Blob, headers: seq<Header>, timestamp: Int64)

  /** Length prefix (4) + first offset (8) + length (4) + the fixed fields. */
  const FIXED_AFTER_LENGTH: int := 49
  const BATCH_HEADER_BYTES: int := 4 + 8 + 4 + FIXED_AFTER_LENGTH

  /** The compressor is an arbitrary pair in which decoding inverts encoding. */
  datatype Snappy = Snappy(encode: Bytes -> Bytes, decode: Bytes -> Option<Bytes>) {
    ghost predicate Valid() {
      forall b :: decode(encode(b)) == Some(b)
    }
  }

  // ---- Size estimate ----

  function BlobLen(b: Blob): nat {
    if b.None? then 0 else |b.value|
  }

  function BlobEstimate(n: nat): nat {
    VarintLen(ToInt32(n)) + n
  }

  function HeadersEstimate(hs: seq<Header>): nat {
    if hs == [] then 0
    else BlobEstimate(|hs[0].key|) + BlobEstimate(BlobLen(hs[0].value)) + HeadersEstimate(hs[1..])
  }

  /** Byte count of everything after a record's own length prefix. */
  function RecordLength(r: Record, offsetDelta: Int32, tsDelta: Int64): nat {
    1 + VarlongLen(tsDelta) + VarintLen(offsetDelta)
    + BlobEstimate(BlobLen(r.key)) + BlobEstimate(BlobLen(r.value))
    + VarintLen(ToInt32(|r.headers|)) + HeadersEstimate(r.headers)
  }

  function RecordEstimate(r: Record, offsetDelta: Int32, tsDelta: Int64): nat {
    VarintLen(ToInt32(RecordLength(r, offsetDelta, tsDelta))) + RecordLength(r, offsetDelta, tsDelta)
  }

  /** The estimate of records[from..], the record at index i having offset i. */
  function TailEstimate(records: seq<Record>, from: nat, firstTs: Int64): nat
    requires from <= |records|
    decreases |records| - from
  {
    if from == |records| then 0
    else RecordEstimate(records[from], ToInt32(from), ToInt64(records[from].timestamp - firstTs))
         + TailEstimate(records, from + 1, firstTs)
  }

  function SingleBatchEstimate(r: Record): nat {
    BATCH_HEADER_BYTES + RecordEstimate(r, 0, 0)
  }

  /** What the record form of a partition reports as its wire size. */
  function BatchEstimate(records: seq<Record>): nat {
    if records == [] then 0 else BATCH_HEADER_BYTES + TailEstimate(records, 0, records[0].timestamp)
  }

  lemma {:induction false} TailEstimateSnoc(records: seq<Record>, r: Record, from: nat, firstTs: Int64)
    requires from <= |records|
    ensures TailEstimate(records + [r], from, firstTs)
         == TailEstimate(records, from, firstTs)
            + RecordEstimate(r, ToInt32(|records|), ToInt64(r.timestamp - firstTs))
    decreases |records| - from
  {
    hide RecordEstimate;
    var all := records + [r];
    if from == |records| {
      assert all[from] == r;
      assert TailEstimate(all, from + 1, firstTs) == 0;
    } else {
      TailEstimateSnoc(records, r, from + 1, firstTs);
      assert all[from] == records[from];
    }
  }

  /** Adding one record to a batch costs that record's own estimate at the next offset. */
  lemma BatchEstimateSnoc(records: seq<Record>, r: Record)
    ensures BatchEstimate([r]) == SingleBatchEstimate(r)
    ensures records != [] ==>
              BatchEstimate(records + [r]) == BatchEstimate(records)
                + RecordEstimate(r, ToInt32(|records|), ToInt64(r.timestamp - records[0].timestamp))
  {
    hide RecordEstimate;
    assert TailEstimate([r], 1, r.timestamp) == 0;
    if records != [] {
      TailEstimateSnoc(records, r, 0, records[0].timestamp);
      assert (records + [r])[0] == records[0];
    }
  }

  /** The accumulating loop that sizes a list of records. */
  method EstimateBatch(records: seq<Record>) returns (bytes: nat)
    ensures bytes == BatchEstimate(records)
  {
    hide RecordEstimate;
    if |records| == 0 {
      return 0;
    }
    var firstTs := records[0].timestamp;
    bytes := BATCH_HEADER_BYTES;
    for i := 0 to |records|
      invariant bytes + TailEstimate(records, i, firstTs) == BatchEstimate(records)
    {
      bytes := bytes + RecordEstimate(records[i], ToInt32(i), ToInt64(records[i].timestamp - firstTs));
    }
  }

  // ---- Encoder ----

  function EncodeBlob(b: Blob): Bytes {
    if b.None? then Varint(-1) else Varint(ToInt32(|b.value|)) + b.value
  }

  function EncodeHeaders(hs: seq<Header>): Bytes {
    if hs == [] then [] else EncodeBlob(Some(hs[0].key)) + (EncodeBlob(hs[0].value) + EncodeHeaders(hs[1..]))
  }

  function EncodeBody(r: Record, offsetDelta: Int32, tsDelta: Int64): Bytes {
    BigEndian(1, 0) + (Varint(tsDelta) + (Varint(offsetDelta) + (EncodeBlob(r.key) + (EncodeBlob(r.value)
    + (Varint(ToInt32(|r.headers|)) + EncodeHeaders(r.headers))))))
  }

  function EncodeRecord(r: Record, offsetDelta: Int32, firstTs: Int64): Bytes {
    var tsDelta := ToInt64(r.timestamp - firstTs);
    Varint(ToInt32(RecordLength(r, offsetDelta, tsDelta))) + EncodeBody(r, offsetDelta, tsDelta)
  }

  function EncodeRecords(records: seq<Record>, from: nat, firstTs: Int64): Bytes
    requires from <= |records|
    decreases |records| - from
  {
    if from == |records| then []
    else EncodeRecord(records[from], ToInt32(from), firstTs) + EncodeRecords(records, from + 1, firstTs)
  }

  /** The uncompressed record payload of a batch. */
  function RawPayload(records: seq<Record>): Bytes
    requires records != []
  {
    EncodeRecords(records, 0, records[0].timestamp)
  }

  datatype BatchFields = BatchFields(
    attributes: int, lastOffsetDelta: int, firstTimestamp: Int64, maxTimestamp: Int64, numRecords: int)

  /** Everything after the checksum field: the bytes the checksum covers. */
  function AfterChecksum(f: BatchFields, payload: Bytes): Bytes {
    BigEndian(2, f.attributes) + (BigEndian(4, f.lastOffsetDelta) + (BigEndian(8, f.firstTimestamp)
    + (BigEndian(8, f.maxTimestamp) + (BigEndian(8, -1) + (BigEndian(2, -1) + (BigEndian(4, -1)
    + (BigEndian(4, f.numRecords) + payload)))))))
  }

  function BatchBytes(f: BatchFields, checksum: int, payload: Bytes): Bytes {
    BigEndian(8, 0) + (BigEndian(4, ToInt32(FIXED_AFTER_LENGTH + ToInt32(|payload|))) + (BigEndian(4, -1) + (BigEndian(1, 2)
    + (BigEndian(4, checksum) + AfterChecksum(f, payload)))))
  }

  /** The payload that is sent: compressed only when that makes it shorter. */
  function SentPayload(snappy: Snappy, raw: Bytes): Bytes {
    if |snappy.encode(raw)| < |raw| then snappy.encode(raw) else raw
  }

  function FieldsOf(snappy: Snappy, records: seq<Record>, maxTs: Int64): BatchFields
    requires records != []
  {
    var raw := RawPayload(records);
    BatchFields(if |snappy.encode(raw)| < |raw| then 2 else 0,
                ToInt32(|records| - 1), records[0].timestamp, maxTs, ToInt32(|records|))
  }

  ghost predicate IsMaxTimestamp(records: seq<Record>, maxTs: Int64) {
    && (exists r :: r in records && r.timestamp == maxTs)
    && (forall r :: r in records ==> r.timestamp <= maxTs)
  }

  /** b is the batch the encoder emits for records, whatever the checksum function. */
  ghost predicate Encodes(snappy: Snappy, crc: Bytes -> int, records: seq<Record>, b: Bytes) {
    && records != []
    && exists maxTs: Int64 :: IsMaxTimestamp(records, maxTs)
         && var f := FieldsOf(snappy, records, maxTs);
            var payload := SentPayload(snappy, RawPayload(records));
            b == BatchBytes(f, crc(AfterChecksum(f, payload)), payload)
  }

  method EncodeRecordsLoop(records: seq<Record>, firstTs: Int64) returns (raw: Bytes)
    ensures raw == EncodeRecords(records, 0, firstTs)
  {
    hide EncodeRecord;
    raw := [];
    for i := 0 to |records|
      invariant raw + EncodeRecords(records, i, firstTs) == EncodeRecords(records, 0, firstTs)
    {
      var one := EncodeRecord(records[i], ToInt32(i), firstTs);
      assert raw + EncodeRecords(records, i, firstTs) == (raw + one) + EncodeRecords(records, i + 1, firstTs);
      raw := raw + one;
    }
  }

  method MaxTimestamp(records: seq<Record>) returns (maxTs: Int64)
    requires records != []
    ensures IsMaxTimestamp(records, maxTs)
  {
    maxTs := records[0].timestamp;
    for i := 1 to |records|
      invariant IsMaxTimestamp(records[..i], maxTs)
    {
      if records[i].timestamp > maxTs {
        maxTs := records[i].timestamp;
      }
      assert records[..i + 1] == records[..i] + [records[i]];
    }
    assert records[..|records|] == records;
  }

  /** The encoder writes a zero checksum, then patches it over the bytes that follow it. */
  method EncodeBatch(snappy: Snappy, crc: Bytes -> int, records: seq<Record>)
    returns (buf: Bytes, uncompressed: nat, compressed: nat)
    requires records != []
    ensures Encodes(snappy, crc, records, buf)
    ensures uncompressed == |RawPayload(records)|
    ensures compressed == |SentPayload(snappy, RawPayload(records))| <= uncompressed
  {
    var maxTs := MaxTimestamp(records);
    var raw := EncodeRecordsLoop(records, records[0].timestamp);
    var payload := SentPayload(snappy, raw);
    var f := FieldsOf(snappy, records, maxTs);
    buf := BatchBytes(f, 0, payload);
    buf := PatchChecksum(crc, f, payload, buf);
    uncompressed, compressed := |raw|, |payload|;
  }

  /** The bytes before the checksum field. */
  function BeforeChecksum(payload: Bytes): (b: Bytes)
    ensures |b| == 17
  {
    BigEndian(8, 0) + (BigEndian(4, ToInt32(FIXED_AFTER_LENGTH + ToInt32(|payload|))) + (BigEndian(4, -1) + BigEndian(1, 2)))
  }

  lemma Regroup(a: Bytes, b: Bytes, c: Bytes, d: Bytes, tail: Bytes)
    ensures a + (b + (c + (d + tail))) == (a + (b + (c + d))) + tail
  {
  }

  lemma BatchBytesAroundChecksum(f: BatchFields, checksum: int, payload: Bytes)
    ensures BatchBytes(f, checksum, payload)
         == BeforeChecksum(payload) + (BigEndian(4, checksum) + AfterChecksum(f, payload))
  {
    Regroup(BigEndian(8, 0), BigEndian(4, ToInt32(FIXED_AFTER_LENGTH + ToInt32(|payload|))), BigEndian(4, -1),
            BigEndian(1, 2), BigEndian(4, checksum) + AfterChecksum(f, payload));
  }

  method PatchChecksum(crc: Bytes -> int, f: BatchFields, payload: Bytes, zeroed: Bytes) returns (buf: Bytes)
    requires zeroed == BatchBytes(f, 0, payload)
    ensures buf == BatchBytes(f, crc(AfterChecksum(f, payload)), payload)
  {
    ghost var before, after := BeforeChecksum(payload), AfterChecksum(f, payload);
    BatchBytesAroundChecksum(f, 0, payload);
    BatchBytesAroundChecksum(f, crc(after), payload);
    assert zeroed[..17] == before && zeroed[21..] == after;
    buf := zeroed[..17] + (BigEndian(4, crc(zeroed[21..])) + zeroed[21..]);
  }

  // ---- The estimate is exact ----

  lemma VarintLenIsExact(n: int)
    requires -TWO_63 <= n < TWO_63
    ensures |Varint(n)| == UvarintLen(Zigzag(n))
  {
    UvarintLenIsExact(Zigzag(n));
  }

  lemma BlobEstimateIsExact(b: Blob)
    ensures |EncodeBlob(b)| == BlobEstimate(BlobLen(b))
  {
    if b.Some? {
      VarintLenIsExact(ToInt32(|b.value|));
    }
  }

  lemma {:induction false} HeadersEstimateIsExact(hs: seq<Header>)
    ensures |EncodeHeaders(hs)| == HeadersEstimate(hs)
    ensures |hs| <= HeadersEstimate(hs)
  {
    if hs != [] {
      BlobEstimateIsExact(Some(hs[0].key));
      BlobEstimateIsExact(hs[0].value);
      HeadersEstimateIsExact(hs[1..]);
    }
  }

  lemma RecordEstimateIsExact(r: Record, offsetDelta: Int32, firstTs: Int64)
    ensures |EncodeBody(r, offsetDelta, ToInt64(r.timestamp - firstTs))|
         == RecordLength(r, offsetDelta, ToInt64(r.timestamp - firstTs))
    ensures |EncodeRecord(r, offsetDelta, firstTs)|
         == RecordEstimate(r, offsetDelta, ToInt64(r.timestamp - firstTs))
  {
    var tsDelta := ToInt64(r.timestamp - firstTs);
    VarintLenIsExact(tsDelta);
    VarintLenIsExact(offsetDelta);
    BlobEstimateIsExact(r.key);
    BlobEstimateIsExact(r.value);
    VarintLenIsExact(ToInt32(|r.headers|));
    HeadersEstimateIsExact(r.headers);
    VarintLenIsExact(ToInt32(RecordLength(r, offsetDelta, tsDelta)));
  }

  lemma {:induction false} TailEstimateIsExact(records: seq<Record>, from: nat, firstTs: Int64)
    requires from <= |records|
    ensures |EncodeRecords(records, from, firstTs)| == TailEstimate(records, from, firstTs)
    decreases |records| - from
  {
    hide EncodeRecord, RecordEstimate, EncodeBody, RecordLength, ToInt32, ToInt64;
    if from < |records| {
      RecordEstimateIsExact(records[from], ToInt32(from), firstTs);
      TailEstimateIsExact(records, from + 1, firstTs);
    }
  }

  /** For every record list, of any size, the estimate is the header plus the encoder's real output. */
  lemma EstimateIsExact(records: seq<Record>)
    ensures BatchEstimate(records) == if records == [] then 0 else BATCH_HEADER_BYTES + |RawPayload(records)|
  {
    if records != [] {
      TailEstimateIsExact(records, 0, records[0].timestamp);
    }
  }

  // ---- Decoder ----

  function ReadBlob(b: Bytes): Option<(Blob, Bytes)> {
    var (n, rest) :- ReadVarint(b);
    if n < 0 then Some((None, rest))
    else if |rest| < n then None
    else Some((Some(rest[..n]), rest[n..]))
  }

  function ReadHeaders(b: Bytes, count: nat): Option<(seq<Header>, Bytes)>
    decreases count
  {
    if count == 0 then Some(([], b))
    else
      var (key, b1) :- ReadBlob(b);
      var (value, b2) :- ReadBlob(b1);
      var (others, rest) :- ReadHeaders(b2, count - 1);
      Some(([Header(if key.None? then [] else key.value, value)] + others, rest))
  }

  datatype WireRecord = WireRecord(
    length: int, attributes: int, tsDelta: int, offsetDelta: int, key: Blob, value: Blob, headers: seq<Header>)

  function ReadWireRecord(b: Bytes): Option<WireRecord> {
    var (length, b1) :- ReadVarint(b);
    var (attributes, b2) :- ReadInt(1, b1);
    var (tsDelta, b3) :- ReadVarlong(b2);
    var (offsetDelta, b4) :- ReadVarint(b3);
    var (key, b5) :- ReadBlob(b4);
    var (value, b6) :- ReadBlob(b5);
    var (count, b7) :- ReadVarint(b6);
    if |b7| < count then None
    else
      var (headers, b8) :- ReadHeaders(b7, if count < 0 then 0 else count);
      Some(WireRecord(length, attributes, tsDelta, offsetDelta, key, value, headers))
  }

  /** How far the decoder advances past a record it has read. */
  function Advance(w: WireRecord): int {
    VarintLen(ToInt32(w.length)) + w.length
  }

  function ToRecord(w: WireRecord, firstTs: Int64): Record {
    Record(w.key, w.value, w.headers, ToInt64(firstTs + w.tsDelta))
  }

  /** None stands for the panics on bytes this client could not have encoded. */
  function DecodeRecords(payload: Bytes, firstTs: Int64): Option<seq<Record>>
    decreases |payload|
  {
    if |payload| == 0 then Some([])
    else
      var w :- ReadWireRecord(payload);
      if !(0 < Advance(w) <= |payload|) then None
      else
        var others :- DecodeRecords(payload[Advance(w)..], firstTs);
        Some([ToRecord(w, firstTs)] + others)
  }

  datatype WireBatch = WireBatch(
    firstOffset: int, length: int, leaderEpoch: int, magic: int, attributes: int, lastOffsetDelta: int,
    firstTimestamp: int, maxTimestamp: int, producerID: int, producerEpoch: int, firstSequence: int, numRecords: int,
    records: Bytes)

  function ReadWireBatch(src: Bytes): Option<WireBatch> {
    var (firstOffset, b1) :- ReadInt(8, src);
    var (length, b2) :- ReadInt(4, b1);
    var (leaderEpoch, b3) :- ReadInt(4, b2);
    var (magic, b4) :- ReadInt(1, b3);
    var (checksum, b5) :- ReadInt(4, b4);
    var (attributes, b6) :- ReadInt(2, b5);
    var (lastOffsetDelta, b7) :- ReadInt(4, b6);
    var (firstTimestamp, b8) :- ReadInt(8, b7);
    var (maxTimestamp, b9) :- ReadInt(8, b8);
    var (producerID, b10) :- ReadInt(8, b9);
    var (producerEpoch, b11) :- ReadInt(2, b10);
    var (firstSequence, b12) :- ReadInt(4, b11);
    var (numRecords, b13) :- ReadInt(4, b12);
    var span := length - FIXED_AFTER_LENGTH;
    if !(0 <= span <= |b13|) then None
    else Some(WireBatch(firstOffset, length, leaderEpoch, magic, attributes, lastOffsetDelta, firstTimestamp, maxTimestamp,
                        producerID, producerEpoch, firstSequence, numRecords, b13[..span]))
  }

  /** Uncompressed payload of a batch that was read. */
  function Payload(snappy: Snappy, batch: WireBatch): Option<Bytes> {
    if batch.attributes % 8 == 2 then snappy.decode(batch.records) else Some(batch.records)
  }

  function DecodeBatch(snappy: Snappy, encoded: Bytes): Option<seq<Record>> {
    var batch :- ReadWireBatch(encoded);
    var payload :- Payload(snappy, batch);
    DecodeRecords(payload, ToInt64(batch.firstTimestamp))
  }

  /** The decoding loop: reads a record, appends it, skips its declared length. */
  method DecodeRecordsLoop(bytes: Bytes, firstTs: Int64) returns (r: Option<seq<Record>>)
    ensures r == DecodeRecords(bytes, firstTs)
  {
    hide ReadWireRecord, ToRecord, Advance;
    var payload := bytes;
    var records: seq<Record> := [];
    assert forall more: seq<Record> :: records + more == more;
    while |payload| > 0
      invariant DecodeRecords(bytes, firstTs)
             == match DecodeRecords(payload, firstTs) case None => None case Some(more) => Some(records + more)
      decreases |payload|
    {
      var w := ReadWireRecord(payload);
      if w.None? || !(0 < Advance(w.value) <= |payload|) {
        return None;
      }
      ghost var before := records;
      records := records + [ToRecord(w.value, firstTs)];
      assert forall more: seq<Record> :: before + ([ToRecord(w.value, firstTs)] + more) == records + more;
      payload := payload[Advance(w.value)..];
    }
    assert records + [] == records;
    return Some(records);
  }

  // ---- Round trip ----

  lemma BlobRoundTrip(b: Blob, rest: Bytes)
    requires BlobLen(b) < TWO_31
    ensures ReadBlob(EncodeBlob(b) + rest) == Some((b, rest))
  {
    if b.None? {
      VarintRoundTrip(-1, rest);
    } else {
      VarintRoundTrip(|b.value|, b.value + rest);
      assert EncodeBlob(b) + rest == Varint(|b.value|) + (b.value + rest);
    }
  }

  lemma {:induction false} HeadersRoundTrip(hs: seq<Header>, rest: Bytes)
    requires HeadersEstimate(hs) < TWO_31
    ensures ReadHeaders(EncodeHeaders(hs) + rest, |hs|) == Some((hs, rest))
  {
    if hs == [] {
      assert EncodeHeaders(hs) + rest == rest;
    } else {
      var tail := EncodeHeaders(hs[1..]) + rest;
      var value := EncodeBlob(hs[0].value) + tail;
      assert EncodeHeaders(hs) + rest == EncodeBlob(Some(hs[0].key)) + value;
      BlobRoundTrip(Some(hs[0].key), value);
      BlobRoundTrip(hs[0].value, tail);
      HeadersRoundTrip(hs[1..], rest);
      assert [Header(hs[0].key, hs[0].value)] + hs[1..] == hs;
    }
  }

  lemma RecordRoundTrip(r: Record, offsetDelta: Int32, firstTs: Int64, rest: Bytes)
    requires RecordLength(r, offsetDelta, ToInt64(r.timestamp - firstTs)) < TWO_31
    ensures var w := ReadWireRecord(EncodeRecord(r, offsetDelta, firstTs) + rest);
            && w.Some?
            && ToRecord(w.value, firstTs) == r
            && w.value.offsetDelta == offsetDelta && w.value.attributes == 0
            && Advance(w.value) == |EncodeRecord(r, offsetDelta, firstTs)|
  {
    hide EncodeRecord, EncodeBody, EncodeBlob, EncodeHeaders, RecordLength, RecordEstimate, Varint, BigEndian;
    hide ReadBlob, ReadHeaders, ReadVarint, ReadVarlong, ReadInt;
    var tsDelta := ToInt64(r.timestamp - firstTs);
    var length := RecordLength(r, offsetDelta, tsDelta);
    var b7 := EncodeHeaders(r.headers) + rest;
    var b6 := Varint(|r.headers|) + b7;
    var b5 := EncodeBlob(r.value) + b6;
    var b4 := EncodeBlob(r.key) + b5;
    var b3 := Varint(offsetDelta) + b4;
    var b2 := Varint(tsDelta) + b3;
    var b1 := BigEndian(1, 0) + b2;
    RecordPartsFit(r, offsetDelta, tsDelta);
    EncodedRecordLayout(r, offsetDelta, firstTs, rest);
    Ranges();
    VarintRoundTrip(length, b1);
    IntRoundTrip(1, 0, b2);
    VarlongRoundTrip(tsDelta, b3);
    VarintRoundTrip(offsetDelta, b4);
    BlobRoundTrip(r.key, b5);
    BlobRoundTrip(r.value, b6);
    VarintRoundTrip(|r.headers|, b7);
    HeadersRoundTrip(r.headers, rest);
    WrappedDeltaRestores(r.timestamp, firstTs);
    RecordAdvance(r, offsetDelta, firstTs);
  }

  /** When a record's length fits in an int32, so does every length inside it. */
  lemma RecordPartsFit(r: Record, offsetDelta: Int32, tsDelta: Int64)
    requires RecordLength(r, offsetDelta, tsDelta) < TWO_31
    ensures BlobLen(r.key) < TWO_31 && BlobLen(r.value) < TWO_31
    ensures |r.headers| <= |EncodeHeaders(r.headers)| == HeadersEstimate(r.headers) < TWO_31
  {
    HeadersEstimateIsExact(r.headers);
  }

  lemma RecordAdvance(r: Record, offsetDelta: Int32, firstTs: Int64)
    requires RecordLength(r, offsetDelta, ToInt64(r.timestamp - firstTs)) < TWO_31
    ensures var length := RecordLength(r, offsetDelta, ToInt64(r.timestamp - firstTs));
            VarintLen(length) + length == |EncodeRecord(r, offsetDelta, firstTs)|
  {
    RecordEstimateIsExact(r, offsetDelta, firstTs);
  }

  lemma EncodedRecordLayout(r: Record, offsetDelta: Int32, firstTs: Int64, rest: Bytes)
    requires |r.headers| < TWO_31 && RecordLength(r, offsetDelta, ToInt64(r.timestamp - firstTs)) < TWO_31
    ensures var tsDelta := ToInt64(r.timestamp - firstTs);
            EncodeRecord(r, offsetDelta, firstTs) + rest
              == Varint(RecordLength(r, offsetDelta, tsDelta)) + (BigEndian(1, 0) + (Varint(tsDelta) + (Varint(offsetDelta)
                 + (EncodeBlob(r.key) + (EncodeBlob(r.value) + (Varint(|r.headers|) + (EncodeHeaders(r.headers) + rest)))))))
  {
    var tsDelta := ToInt64(r.timestamp - firstTs);
    Regroup8(Varint(RecordLength(r, offsetDelta, tsDelta)), BigEndian(1, 0), Varint(tsDelta), Varint(offsetDelta),
             EncodeBlob(r.key), EncodeBlob(r.value), Varint(|r.headers|), EncodeHeaders(r.headers), rest);
  }

  lemma Regroup8(a: Bytes, b: Bytes, c: Bytes, d: Bytes, e: Bytes, f: Bytes, g: Bytes, h: Bytes, rest: Bytes)
    ensures (a + (b + (c + (d + (e + (f + (g + h))))))) + rest
         == a + (b + (c + (d + (e + (f + (g + (h + rest)))))))
  {
  }

  lemma {:induction false} RecordsRoundTrip(records: seq<Record>, from: nat, firstTs: Int64)
    requires from <= |records|
    requires |EncodeRecords(records, from, firstTs)| < TWO_31
    ensures DecodeRecords(EncodeRecords(records, from, firstTs), firstTs) == Some(records[from..])
    decreases |records| - from
  {
    hide EncodeRecord, RecordEstimate, RecordLength, ReadWireRecord, ToRecord, Advance;
    if from == |records| {
      assert records[from..] == [];
    } else {
      var r := records[from];
      var one := EncodeRecord(r, ToInt32(from), firstTs);
      var rest := EncodeRecords(records, from + 1, firstTs);
      RecordFits(r, ToInt32(from), firstTs);
      RecordRoundTrip(r, ToInt32(from), firstTs, rest);
      RecordsRoundTrip(records, from + 1, firstTs);
      assert (one + rest)[|one|..] == rest;
      assert [r] + records[from + 1..] == records[from..];
    }
  }

  lemma RecordFits(r: Record, offsetDelta: Int32, firstTs: Int64)
    ensures 0 < |EncodeRecord(r, offsetDelta, firstTs)|
    ensures RecordLength(r, offsetDelta, ToInt64(r.timestamp - firstTs)) < |EncodeRecord(r, offsetDelta, firstTs)|
  {
    RecordEstimateIsExact(r, offsetDelta, firstTs);
  }

  /** Every header field reads back, the constants included. */
  lemma WireBatchRoundTrip(f: BatchFields, checksum: int, payload: Bytes)
    requires FIXED_AFTER_LENGTH + |payload| < TWO_31
    requires 0 <= f.attributes < 8 && 0 <= f.lastOffsetDelta < TWO_31 && 0 <= f.numRecords < TWO_31
    ensures ReadWireBatch(BatchBytes(f, checksum, payload))
         == Some(WireBatch(0, FIXED_AFTER_LENGTH + |payload|, -1, 2, f.attributes, f.lastOffsetDelta, f.firstTimestamp,
                           f.maxTimestamp, -1, -1, -1, f.numRecords, payload))
  {
    hide BigEndian, ReadInt;
    var b13 := payload;
    var b12 := BigEndian(4, f.numRecords) + b13;
    var b11 := BigEndian(4, -1) + b12;
    var b10 := BigEndian(2, -1) + b11;
    var b9 := BigEndian(8, -1) + b10;
    var b8 := BigEndian(8, f.maxTimestamp) + b9;
    var b7 := BigEndian(8, f.firstTimestamp) + b8;
    var b6 := BigEndian(4, f.lastOffsetDelta) + b7;
    var b5 := BigEndian(2, f.attributes) + b6;
    var b4 := BigEndian(4, checksum) + b5;
    var b3 := BigEndian(1, 2) + b4;
    var b2 := BigEndian(4, -1) + b3;
    var length := ToInt32(FIXED_AFTER_LENGTH + ToInt32(|payload|));
    var b1 := BigEndian(4, length) + b2;
    Ranges();
    IntRoundTrip(8, 0, b1);
    IntRoundTrip(4, length, b2);
    IntRoundTrip(4, -1, b3);
    IntRoundTrip(1, 2, b4);
    IntSkips(4, checksum, b5);
    IntRoundTrip(2, f.attributes, b6);
    IntRoundTrip(4, f.lastOffsetDelta, b7);
    IntRoundTrip(8, f.firstTimestamp, b8);
    IntRoundTrip(8, f.maxTimestamp, b9);
    IntRoundTrip(8, -1, b10);
    IntRoundTrip(2, -1, b11);
    IntRoundTrip(4, -1, b12);
    IntRoundTrip(4, f.numRecords, b13);
    assert payload[..|payload|] == payload;
  }

  lemma {:induction false} EveryRecordTakesAByte(records: seq<Record>, from: nat, firstTs: Int64)
    requires from <= |records|
    ensures |records| - from <= |EncodeRecords(records, from, firstTs)|
    decreases |records| - from
  {
    hide EncodeRecord, RecordLength;
    if from < |records| {
      RecordFits(records[from], ToInt32(from), firstTs);
      EveryRecordTakesAByte(records, from + 1, firstTs);
    }
  }

  lemma FieldsFit(snappy: Snappy, records: seq<Record>, maxTs: Int64)
    requires FitsInt32(records)
    ensures |records| < TWO_31 && |SentPayload(snappy, RawPayload(records))| <= |RawPayload(records)|
    ensures FieldsOf(snappy, records, maxTs).lastOffsetDelta == |records| - 1 && FieldsOf(snappy, records, maxTs).numRecords == |records|
  {
    hide EncodeRecords;
    EveryRecordTakesAByte(records, 0, records[0].timestamp);
  }

  /** What the header of every encoded batch says when it is read back: the number of records, the
      offset of the last one, the first and the largest timestamp, and the fixed fields. */
  lemma HeaderDescribesRecords(snappy: Snappy, crc: Bytes -> int, records: seq<Record>, encoded: Bytes)
    requires Encodes(snappy, crc, records, encoded) && FitsInt32(records)
    ensures var w := ReadWireBatch(encoded);
            && w.Some?
            && w.value.numRecords == |records| && w.value.lastOffsetDelta == |records| - 1
            && w.value.firstTimestamp == records[0].timestamp
            && (exists r :: r in records && r.timestamp == w.value.maxTimestamp)
            && (forall r :: r in records ==> r.timestamp <= w.value.maxTimestamp)
            && w.value.firstOffset == 0 && w.value.leaderEpoch == -1 && w.value.magic == 2
            && w.value.producerID == -1 && w.value.producerEpoch == -1 && w.value.firstSequence == -1
            && w.value.length + 12 == |encoded|
            && w.value.records == SentPayload(snappy, RawPayload(records))
            && w.value.attributes == (if w.value.records == RawPayload(records) then 0 else 2)
  {
    hide ReadWireBatch, BatchBytes, AfterChecksum, EncodeRecords;
    var payload := SentPayload(snappy, RawPayload(records));
    var maxTs: Int64 :| IsMaxTimestamp(records, maxTs)
      && var f := FieldsOf(snappy, records, maxTs);
         encoded == BatchBytes(f, crc(AfterChecksum(f, payload)), payload);
    var f := FieldsOf(snappy, records, maxTs);
    FieldsFit(snappy, records, maxTs);
    WireBatchRoundTrip(f, crc(AfterChecksum(f, payload)), payload);
    BatchLength(f, crc(AfterChecksum(f, payload)), payload);
  }

  lemma BatchLength(f: BatchFields, checksum: int, payload: Bytes)
    ensures |BatchBytes(f, checksum, payload)| == 12 + FIXED_AFTER_LENGTH + |payload|
  {
  }

  /** The checksum field holds the checksum of everything after it. */
  lemma ChecksumCoversTheRest(snappy: Snappy, crc: Bytes -> int, records: seq<Record>, encoded: Bytes)
    requires Encodes(snappy, crc, records, encoded)
    ensures |encoded| >= 21 && encoded[17..21] == BigEndian(4, crc(encoded[21..]))
  {
    hide BatchBytes, AfterChecksum, EncodeRecords, BeforeChecksum;
    var payload := SentPayload(snappy, RawPayload(records));
    var maxTs: Int64 :| IsMaxTimestamp(records, maxTs)
      && var f := FieldsOf(snappy, records, maxTs);
         encoded == BatchBytes(f, crc(AfterChecksum(f, payload)), payload);
    var f := FieldsOf(snappy, records, maxTs);
    var rest := AfterChecksum(f, payload);
    BatchBytesAroundChecksum(f, crc(rest), payload);
    assert encoded[21..] == rest && encoded[17..21] == BigEndian(4, crc(rest));
  }

  /** The offset deltas of a payload's records, as they are read. */
  function ReadOffsets(payload: Bytes): Option<seq<int>>
    decreases |payload|
  {
    if |payload| == 0 then Some([])
    else
      var w :- ReadWireRecord(payload);
      if !(0 < Advance(w) <= |payload|) then None
      else
        var others :- ReadOffsets(payload[Advance(w)..]);
        Some([w.offsetDelta] + others)
  }

  /** The i-th record of a batch is written with offset delta i. */
  lemma {:induction false} OffsetsCountUp(records: seq<Record>, from: nat, firstTs: Int64)
    requires from <= |records| < TWO_31
    requires |EncodeRecords(records, from, firstTs)| < TWO_31
    ensures var r := ReadOffsets(EncodeRecords(records, from, firstTs));
            r.Some? && |r.value| == |records| - from && forall i :: 0 <= i < |r.value| ==> r.value[i] == from + i
    decreases |records| - from
  {
    hide EncodeRecord, RecordEstimate, RecordLength, ReadWireRecord, ToRecord, Advance;
    if from < |records| {
      var r := records[from];
      var one := EncodeRecord(r, ToInt32(from), firstTs);
      var rest := EncodeRecords(records, from + 1, firstTs);
      RecordFits(r, ToInt32(from), firstTs);
      RecordRoundTrip(r, ToInt32(from), firstTs, rest);
      OffsetsCountUp(records, from + 1, firstTs);
      assert (one + rest)[|one|..] == rest;
    }
  }

  /** Every non-empty record list within int32 sizes survives encoding and decoding,
      whatever the checksum, and whether or not compression shrinks it. */
  lemma BatchRoundTrip(snappy: Snappy, crc: Bytes -> int, records: seq<Record>, encoded: Bytes)
    requires snappy.Valid()
    requires Encodes(snappy, crc, records, encoded)
    requires FitsInt32(records)
    ensures DecodeBatch(snappy, encoded) == Some(records)
  {
    hide ReadWireBatch, BatchBytes, AfterChecksum, DecodeRecords, EncodeRecords;
    var raw := RawPayload(records);
    var payload := SentPayload(snappy, raw);
    var maxTs: Int64 :| IsMaxTimestamp(records, maxTs)
      && var f := FieldsOf(snappy, records, maxTs);
         encoded == BatchBytes(f, crc(AfterChecksum(f, payload)), payload);
    var f := FieldsOf(snappy, records, maxTs);
    FieldsFit(snappy, records, maxTs);
    WireBatchRoundTrip(f, crc(AfterChecksum(f, payload)), payload);
    RecordsRoundTrip(records, 0, records[0].timestamp);
    assert records[0..] == records;
  }

  /** Every size field of the batch of rs fits the int32 that carries it. */
  ghost predicate FitsInt32(rs: seq<Record>) {
    rs != [] && FIXED_AFTER_LENGTH + |RawPayload(rs)| < TWO_31
  }

  /** An encoded batch of one partition: its bytes and the counts taken when it was encoded. */
  datatype EncodedBatch = EncodedBatch(encoded: Bytes, records: nat, uncompressed: nat)

  /** e was produced by this client from rs. */
  ghost predicate Holds(snappy: Snappy, crc: Bytes -> int, e: EncodedBatch, rs: seq<Record>) {
    && Encodes(snappy, crc, rs, e.encoded)
    && FitsInt32(rs)
    && e.records == |rs|
    && e.uncompressed == |RawPayload(rs)|
  }

  /** What the encoded form of a partition reports as its wire size. */
  function EncodedWireBytes(e: EncodedBatch): nat {
    if e.records == 0 then 0 else BATCH_HEADER_BYTES + e.uncompressed
  }

  /** The record form and the encoded form of a partition report the same wire size. */
  lemma FormsAgreeOnSize(snappy: Snappy, crc: Bytes -> int, e: EncodedBatch, rs: seq<Record>)
    requires Holds(snappy, crc, e, rs)
    ensures EncodedWireBytes(e) == BatchEstimate(rs)
  {
    EstimateIsExact(rs);
  }

  method DecodeAll(snappy: Snappy, crc: Bytes -> int, batches: seq<EncodedBatch>, ghost contents: seq<seq<Record>>)
    returns (records: seq<Record>)
    requires snappy.Valid()
    requires |batches| == |contents|
    requires forall i :: 0 <= i < |batches| ==> Holds(snappy, crc, batches[i], contents[i])
    ensures records == Flatten(contents)
  {
    hide DecodeBatch, Encodes, RawPayload;
    records := [];
    for i := 0 to |batches|
      invariant records == Flatten(contents[..i])
    {
      BatchRoundTrip(snappy, crc, contents[i], batches[i].encoded);
      records := records + DecodeBatch(snappy, batches[i].encoded).value;
      assert contents[..i + 1] == contents[..i] + [contents[i]];
      FlattenSnoc(contents[..i], contents[i]);
    }
    assert contents[..|batches|] == contents;
  }

  /** Merging encoded batches decodes each one, concatenates in arrival order, and encodes once;
      a single batch is passed through untouched. */
  method MergeEncoded(snappy: Snappy, crc: Bytes -> int, batches: seq<EncodedBatch>, ghost contents: seq<seq<Record>>)
    returns (merged: EncodedBatch)
    requires snappy.Valid()
    requires 0 < |batches| == |contents|
    requires forall i :: 0 <= i < |batches| ==> Holds(snappy, crc, batches[i], contents[i])
    requires FitsInt32(Flatten(contents))
    ensures Holds(snappy, crc, merged, Flatten(contents))
    ensures DecodeBatch(snappy, merged.encoded) == Some(Flatten(contents))
    ensures |batches| == 1 ==> merged == batches[0]
  {
    hide DecodeBatch, Encodes, RawPayload;
    if |batches| == 1 {
      assert Flatten(contents) == contents[0] + Flatten(contents[1..]) == contents[0];
      merged := batches[0];
    } else {
      var records := DecodeAll(snappy, crc, batches, contents);
      var buf, uncompressed, compressed := EncodeBatch(snappy, crc, records);
      merged := EncodedBatch(buf, |records|, uncompressed);
    }
    BatchRoundTrip(snappy, crc, Flatten(contents), merged.encoded);
  }
}
