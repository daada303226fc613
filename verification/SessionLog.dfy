/** Session logs, `maploc/src/record.rs` and `maploc/src/replay.rs`: what the recorder
    writes, the replayer reads back, and a log cut short loses only what lies past the
    cut. A float is the four or eight bytes it is stored as. */
module SessionLog {
  import opened Grid

  type Byte = b: int | 0 <= b < 256
  type Bytes = seq<Byte>
  type F32 = s: seq<Byte> | |s| == 4 witness [0, 0, 0, 0]
  type F64 = s: seq<Byte> | |s| == 8 witness [0, 0, 0, 0, 0, 0, 0, 0]

  const MAGIC: Bytes := [0x4D, 0x44, 0x4C, 0x47]
  const VERSION: nat := 2
  const STREAM_TOF: Byte := 0
  const STREAM_TWIN: Byte := 1
  const STREAM_ODOM: Byte := 2
  const TOF_ROWS: nat := 8
  const TOF_COLS: nat := 8
  const ODOM_SIZE: nat := 45
  const TWIN_SIZE_V1: nat := 172
  const TWIN_SIZE_V2: nat := 180

  // ── Numbers as bytes ────────────────────────────────────────────────────────

  function Pow256(k: nat): (r: nat)
    ensures r > 0
  {
    if k == 0 then 1 else 256 * Pow256(k - 1)
  }

  function LittleEndian(n: nat, k: nat): (b: Bytes)
    ensures |b| == k
  {
    if k == 0 then [] else [n % 256] + LittleEndian(n / 256, k - 1)
  }

  function FromLittleEndian(b: Bytes): nat
  {
    if b == [] then 0 else b[0] + 256 * FromLittleEndian(b[1..])
  }

  lemma {:induction false} NumbersRoundTrip(n: nat, k: nat)
    requires n < Pow256(k)
    ensures FromLittleEndian(LittleEndian(n, k)) == n
  {
    if k > 0 {
      NumbersRoundTrip(n / 256, k - 1);
      assert LittleEndian(n, k)[1..] == LittleEndian(n / 256, k - 1);
    }
  }

  // ── Records ─────────────────────────────────────────────────────────────────

  datatype TofRecord = TofRecord(tsUs: nat, senderTsS: F64, ranges: seq<seq<F32>>, status: seq<Bytes>, tNs: nat)

  datatype OdomRecord = OdomRecord(
    tsUs: nat, odomX: F32, odomY: F32, odomYaw: F32, gravity: seq<F32>, trunkZ: F32, head: seq<F32>,
    moving: bool, sitting: bool, fallen: bool, tNs: nat)

  /** A packet of the prototype's, its fields not looked into. */
  datatype TwinRecord = TwinRecord(tsUs: nat, packet: Bytes)

  datatype Record = Tof(tof: TofRecord) | Twin(twin: TwinRecord) | Odom(odom: OdomRecord)

  datatype Error = UnexpectedEof | InvalidData

  /** What one step of the replayer comes to. */
  datatype Item = End | Failed(error: Error) | Got(record: Record)

  const U64: nat := 0x1_0000_0000_0000_0000
  const U32: nat := 0x1_0000_0000

  // ── The recorder's bytes ────────────────────────────────────────────────────

  function Flat(fs: seq<F32>): (b: Bytes)
    ensures |b| == 4 * |fs|
  {
    if fs == [] then [] else Flat(fs[..|fs| - 1]) + fs[|fs| - 1]
  }

  lemma {:induction false} FlatAt(fs: seq<F32>, i: nat)
    requires i < |fs|
    ensures Flat(fs)[4 * i..4 * i + 4] == fs[i]
  {
    var n := |fs| - 1;
    if i < n {
      FlatAt(fs[..n], i);
      assert Flat(fs)[4 * i..4 * i + 4] == Flat(fs[..n])[4 * i..4 * i + 4];
    }
  }

  function Header(tsUs: nat, stream: Byte, size: nat): (b: Bytes)
    ensures |b| == 13
  {
    LittleEndian(tsUs, 8) + [stream] + LittleEndian(size, 4)
  }

  function Framed(tsUs: nat, stream: Byte, payload: Bytes): Bytes
  {
    Header(tsUs, stream, |payload|) + payload
  }

  function TofPayload(senderTsS: F64, rows: Byte, cols: Byte, ranges: seq<F32>, status: Bytes, tNs: nat): Bytes
  {
    senderTsS + [rows, cols, 0, 0] + Flat(ranges) + status + LittleEndian(tNs, 8)
  }

  function Flags(moving: bool, sitting: bool, fallen: bool): Byte
  {
    (if moving then 1 else 0) + (if sitting then 2 else 0) + (if fallen then 4 else 0)
  }

  function OdomValues(o: OdomRecord): seq<F32>
  {
    [o.odomX, o.odomY, o.odomYaw] + o.gravity + [o.trunkZ] + o.head
  }

  function OdomPayload(o: OdomRecord): Bytes
  {
    Flat(OdomValues(o)) + [Flags(o.moving, o.sitting, o.fallen)] + LittleEndian(o.tNs, 8)
  }

  /** The rows of a frame, one after the other. */
  function Unrolled<T>(rows: seq<seq<T>>): seq<T>
  {
    if rows == [] then [] else Unrolled(rows[..|rows| - 1]) + rows[|rows| - 1]
  }

  /** A record's time stamp, stream and payload. */
  function Parts(r: Record): (nat, Byte, Bytes)
  {
    match r
    case Tof(t) => (t.tsUs, STREAM_TOF, TofPayload(t.senderTsS, 8, 8, Unrolled(t.ranges), Unrolled(t.status), t.tNs))
    case Odom(o) => (o.tsUs, STREAM_ODOM, OdomPayload(o))
    case Twin(t) => (t.tsUs, STREAM_TWIN, t.packet)
  }

  /** The bytes the recorder writes for a record. */
  function Written(r: Record): Bytes
  {
    var (tsUs, stream, payload) := Parts(r);
    Framed(tsUs, stream, payload)
  }

  predicate Is8x8<T>(rows: seq<seq<T>>)
  {
    |rows| == TOF_ROWS && forall r :: 0 <= r < |rows| ==> |rows[r]| == TOF_COLS
  }

  /** A record the recorder can write: an 8 x 8 frame, or a tick. */
  predicate Writable(r: Record)
  {
    match r
    case Tof(t) => t.tsUs < U64 && t.tNs < U64 && Is8x8(t.ranges) && Is8x8(t.status)
    case Odom(o) => o.tsUs < U64 && o.tNs < U64 && |o.gravity| == 3 && |o.head| == 4
    case Twin(t) => false
  }

  // ── The replayer's decoding ─────────────────────────────────────────────────

  function F32At(payload: Bytes, off: nat): F32
    requires off + 4 <= |payload|
  {
    payload[off..off + 4]
  }

  function RangeRow(payload: Bytes, r: nat): (row: seq<F32>)
    requires r < TOF_ROWS && |payload| >= 12 + 64 * 4
    ensures |row| == TOF_COLS && forall c :: 0 <= c < TOF_COLS ==> row[c] == F32At(payload, 12 + (r * TOF_COLS + c) * 4)
  {
    Ranges(payload, r, TOF_COLS)
  }

  /** The first `n` ranges of a row. */
  function Ranges(payload: Bytes, r: nat, n: nat): (row: seq<F32>)
    requires r < TOF_ROWS && n <= TOF_COLS && |payload| >= 12 + 64 * 4
    ensures |row| == n && forall c :: 0 <= c < n ==> row[c] == F32At(payload, 12 + (r * TOF_COLS + c) * 4)
  {
    if n == 0 then [] else Ranges(payload, r, n - 1) + [F32At(payload, 12 + (r * TOF_COLS + n - 1) * 4)]
  }

  function StatusRow(payload: Bytes, r: nat): Bytes
    requires r < TOF_ROWS && |payload| >= 12 + 64 * 5
  {
    seq(TOF_COLS, c requires 0 <= c < TOF_COLS => payload[12 + 64 * 4 + r * TOF_COLS + c])
  }

  function TofOf(tsUs: nat, payload: Bytes): Item
  {
    if |payload| < 12 || payload[8] != TOF_ROWS || payload[9] != TOF_COLS then Failed(InvalidData)
    else
      var n := TOF_ROWS * TOF_COLS;
      var need := 12 + n * 4 + n;
      if |payload| < need then Failed(InvalidData)
      else Got(Tof(TofRecord(
        tsUs, payload[0..8],
        seq(TOF_ROWS, r requires 0 <= r < TOF_ROWS => RangeRow(payload, r)),
        seq(TOF_ROWS, r requires 0 <= r < TOF_ROWS => StatusRow(payload, r)),
        if |payload| >= need + 8 then FromLittleEndian(payload[need..need + 8]) else 0)))
  }

  function OdomOf(tsUs: nat, payload: Bytes): Item
  {
    if |payload| != ODOM_SIZE && |payload| != ODOM_SIZE + 8 then Failed(InvalidData)
    else
      var flags := payload[ODOM_SIZE - 1];
      Got(Odom(OdomRecord(
        tsUs, F32At(payload, 0), F32At(payload, 4), F32At(payload, 8),
        [F32At(payload, 12), F32At(payload, 16), F32At(payload, 20)], F32At(payload, 24),
        [F32At(payload, 28), F32At(payload, 32), F32At(payload, 36), F32At(payload, 40)],
        flags % 2 == 1, flags / 2 % 2 == 1, flags / 4 % 2 == 1,
        if |payload| == ODOM_SIZE + 8 then FromLittleEndian(payload[ODOM_SIZE..ODOM_SIZE + 8]) else 0)))
  }

  function Decoded(tsUs: nat, stream: Byte, payload: Bytes): Item
  {
    if stream == STREAM_TOF then TofOf(tsUs, payload)
    else if stream == STREAM_TWIN then
      if |payload| == TWIN_SIZE_V1 || |payload| == TWIN_SIZE_V2 then Got(Twin(TwinRecord(tsUs, payload)))
          else Failed(InvalidData)
    else if stream == STREAM_ODOM then OdomOf(tsUs, payload)
    else Failed(InvalidData)
  }

  /** One step from `pos`, and where it leaves the reader. Too few bytes for a time
      stamp is the end of the log; too few for the rest of a record is an error. */
  function NextItem(data: Bytes, pos: nat): (r: (Item, nat))
    requires pos <= |data|
    ensures pos <= r.1 <= |data| && (r.0.Got? ==> r.1 >= pos + 13)
  {
    if |data| - pos < 8 then (End, |data|)
    else if |data| - pos < 13 then (Failed(UnexpectedEof), |data|)
    else
      var size := FromLittleEndian(data[pos + 9..pos + 13]);
      if |data| - pos - 13 < size then (Failed(UnexpectedEof), |data|)
      else (Decoded(FromLittleEndian(data[pos..pos + 8]), data[pos + 8], data[pos + 13..pos + 13 + size]), pos + 13
          + size)
  }

  /** All the records from `pos` up to the first step that yields none, and that step. */
  function ReadFrom(data: Bytes, pos: nat): (seq<Record>, Item)
    requires pos <= |data|
    decreases |data| - pos
  {
    var (item, next) := NextItem(data, pos);
    if item.Got? then var (rest, last) := ReadFrom(data, next); ([item.record] + rest, last)
    else ([], item)
  }

  // ── Round trips ─────────────────────────────────────────────────────────────

  lemma OdomRoundTrip(o: OdomRecord)
    requires Writable(Odom(o))
    ensures OdomOf(o.tsUs, OdomPayload(o)) == Got(Odom(o)) && |OdomPayload(o)| == ODOM_SIZE + 8
  {
    var (values, payload) := (OdomValues(o), OdomPayload(o));
    forall i | 0 <= i < 11 ensures F32At(payload, 4 * i) == values[i] {
      FlatAt(values, i);
      assert payload[4 * i..4 * i + 4] == Flat(values)[4 * i..4 * i + 4];
    }
    Pow256Of8();
    NumbersRoundTrip(o.tNs, 8);
    assert payload[ODOM_SIZE..ODOM_SIZE + 8] == LittleEndian(o.tNs, 8);
    assert payload[ODOM_SIZE - 1] == Flags(o.moving, o.sitting, o.fallen);
    assert o.gravity == [values[3], values[4], values[5]] && o.head == [values[7], values[8], values[9], values[10]];
    assert F32At(payload, 4 * 0) == values[0] && F32At(payload, 4 * 1) == values[1]
        && F32At(payload, 4 * 2) == values[2] && F32At(payload, 4 * 3) == values[3];
    assert F32At(payload, 4 * 4) == values[4] && F32At(payload, 4 * 5) == values[5]
        && F32At(payload, 4 * 6) == values[6] && F32At(payload, 4 * 7) == values[7];
    assert F32At(payload, 4 * 8) == values[8] && F32At(payload, 4 * 9) == values[9]
        && F32At(payload, 4 * 10) == values[10];
  }

  lemma Pow256Of8()
    ensures Pow256(8) == U64 && Pow256(4) == U32
  {
  }

  lemma {:induction false} UnrolledAt<T>(rows: seq<seq<T>>, w: nat, r: nat, c: nat)
    requires (forall k :: 0 <= k < |rows| ==> |rows[k]| == w) && r < |rows| && c < w
    ensures |Unrolled(rows)| == |rows| * w && 0 <= r * w + c < |rows| * w && Unrolled(rows)[r * w + c] == rows[r][c]
  {
    var n := |rows| - 1;
    UnrolledSize(rows, w);
    UnrolledSize(rows[..n], w);
    assert n * w + w == |rows| * w;
    if r < n {
      UnrolledAt(rows[..n], w, r, c);
    }
  }

  lemma {:induction false} UnrolledSize<T>(rows: seq<seq<T>>, w: nat)
    requires forall k :: 0 <= k < |rows| ==> |rows[k]| == w
    ensures |Unrolled(rows)| == |rows| * w
  {
    if rows != [] {
      UnrolledSize(rows[..|rows| - 1], w);
      assert (|rows| - 1) * w + w == |rows| * w;
    }
  }

  lemma TofRoundTrip(t: TofRecord)
    requires Writable(Tof(t))
    ensures var payload := TofPayload(t.senderTsS, 8, 8, Unrolled(t.ranges), Unrolled(t.status), t.tNs);
            TofOf(t.tsUs, payload) == Got(Tof(t)) && |payload| == 340
  {
    var (ranges, status) := (Unrolled(t.ranges), Unrolled(t.status));
    var payload := TofPayload(t.senderTsS, 8, 8, ranges, status, t.tNs);
    UnrolledSize(t.ranges, 8);
    UnrolledSize(t.status, 8);
    assert payload[0..8] == t.senderTsS;
    TofRows(t, payload);
    Pow256Of8();
    NumbersRoundTrip(t.tNs, 8);
    assert payload[332..340] == LittleEndian(t.tNs, 8);
    hide Unrolled, Flat, LittleEndian, FromLittleEndian;
    assert seq(TOF_ROWS, r requires 0 <= r < TOF_ROWS => RangeRow(payload, r)) == t.ranges;
    assert seq(TOF_ROWS, r requires 0 <= r < TOF_ROWS => StatusRow(payload, r)) == t.status;
  }

  lemma TofRows(t: TofRecord, payload: Bytes)
    requires Writable(Tof(t)) && |Unrolled(t.ranges)| == |Unrolled(t.status)| == 64
    requires payload == TofPayload(t.senderTsS, 8, 8, Unrolled(t.ranges), Unrolled(t.status), t.tNs)
    ensures |payload| == 340 && forall r ::
              0 <= r < TOF_ROWS ==> RangeRow(payload, r) == t.ranges[r] && StatusRow(payload, r) == t.status[r]
  {
    var (ranges, status) := (Unrolled(t.ranges), Unrolled(t.status));
    forall r | 0 <= r < TOF_ROWS ensures RangeRow(payload, r) == t.ranges[r] && StatusRow(payload, r) == t.status[r] {
      forall c | 0 <= c < TOF_COLS ensures RangeRow(payload, r)[c] == t.ranges[r][c]
          && StatusRow(payload, r)[c] == t.status[r][c] {
        TofZone(t, payload, r, c);
      }
    }
  }

  lemma TofZone(t: TofRecord, payload: Bytes, r: nat, c: nat)
    requires Writable(Tof(t)) && |Unrolled(t.ranges)| == |Unrolled(t.status)| == 64 && r < 8 && c < 8
    requires payload == TofPayload(t.senderTsS, 8, 8, Unrolled(t.ranges), Unrolled(t.status), t.tNs)
    ensures |payload| == 340 && F32At(payload, 12 + (r * 8 + c) * 4) == t.ranges[r][c]
              && payload[12 + 64 * 4 + r * 8 + c] == t.status[r][c]
  {
    var (ranges, status) := (Unrolled(t.ranges), Unrolled(t.status));
    UnrolledAt(t.ranges, 8, r, c);
    UnrolledAt(t.status, 8, r, c);
    hide Unrolled;
    var i := r * 8 + c;
    FlatAt(ranges, i);
    hide Flat;
    var off := 12 + 4 * i;
    assert payload == (t.senderTsS + [8, 8, 0, 0]) + Flat(ranges) + (status + LittleEndian(t.tNs, 8));
    assert payload[off..off + 4] == Flat(ranges)[4 * i..4 * i + 4];
    assert payload[268 + i] == status[i];
  }

  /** The reader refuses every frame the recorder accepts that is not 8 x 8. */
  lemma OtherFramesAreRefused(tsUs: nat, senderTsS: F64, rows: Byte, cols: Byte, ranges: seq<F32>, status: Bytes,
      tNs: nat)
    requires |ranges| == |status| == rows as nat * cols as nat
    ensures TofOf(tsUs, TofPayload(senderTsS, rows, cols, ranges, status, tNs)).Got? <==> rows == 8 && cols == 8
  {
  }

  // ── Logs ────────────────────────────────────────────────────────────────────

  /** A record's bytes, whatever comes before and after them. */
  lemma RecordRoundTrip(before: Bytes, r: Record, after: Bytes)
    requires Writable(r)
    ensures NextItem(before + Written(r) + after, |before|) == (Got(r), |before| + |Written(r)|) && |Written(r)| >= 13
  {
    var (tsUs, stream, payload) := Parts(r);
    PartsRoundTrip(r);
    FrameIsRead(before, tsUs, stream, payload, after);
  }

  lemma PartsRoundTrip(r: Record)
    requires Writable(r)
    ensures var (tsUs, stream, payload) := Parts(r);
            Decoded(tsUs, stream, payload) == Got(r) && |payload| < U32 && tsUs < U64
                && Written(r) == Framed(tsUs, stream, payload)
  {
    if r.Tof? {
      TofRoundTrip(r.tof);
    } else if r.Odom? {
      OdomRoundTrip(r.odom);
    }
    hide TofOf, OdomOf, TofPayload, OdomPayload;
  }

  lemma FrameIsRead(before: Bytes, tsUs: nat, stream: Byte, payload: Bytes, after: Bytes)
    requires tsUs < U64 && |payload| < U32
    ensures NextItem(before + Framed(tsUs, stream, payload) + after, |before|) ==
              (Decoded(tsUs, stream, payload), |before| + 13 + |payload|)
  {
    var pos := |before|;
    var data := before + Framed(tsUs, stream, payload) + after;
    Pow256Of8();
    NumbersRoundTrip(tsUs, 8);
    NumbersRoundTrip(|payload|, 4);
    assert data[pos..pos + 8] == LittleEndian(tsUs, 8);
    assert data[pos + 8] == stream;
    assert data[pos + 9..pos + 13] == LittleEndian(|payload|, 4);
    assert data == (before + Header(tsUs, stream, |payload|)) + payload + after;
    assert data[pos + 13..pos + 13 + |payload|] == payload;
    hide Decoded, LittleEndian, FromLittleEndian;
  }

  /** A frame cut short: an end when not even its time stamp is whole, an error
      otherwise, and the reader at the end of the data either way. */
  lemma CutFrameIsNotRead(before: Bytes, tsUs: nat, stream: Byte, payload: Bytes, cut: nat)
    requires tsUs < U64 && |payload| < U32 && cut < 13 + |payload|
    ensures NextItem(before + Framed(tsUs, stream, payload)[..cut], |before|) ==
              (if cut < 8 then End else Failed(UnexpectedEof), |before| + cut)
  {
    var pos := |before|;
    var frame := Framed(tsUs, stream, payload);
    var data := before + frame[..cut];
    if cut >= 13 {
      Pow256Of8();
      NumbersRoundTrip(|payload|, 4);
      assert data[pos + 9..pos + 13] == frame[9..13] == LittleEndian(|payload|, 4);
    }
    hide Decoded, LittleEndian, FromLittleEndian;
  }

  function Log(records: seq<Record>): Bytes
  {
    if records == [] then [] else Written(records[0]) + Log(records[1..])
  }

  /** How many records lie wholly before the cut. */
  function WholeBefore(records: seq<Record>, cut: nat): (n: nat)
    ensures n <= |records|
  {
    if records == [] || cut < |Written(records[0])| then 0
        else 1 + WholeBefore(records[1..], cut - |Written(records[0])|)
  }

  /** A log cut anywhere after its header is read up to the last record lying wholly
      before the cut; then it ends, unless the cut left a time stamp and part of a
      record, which is an error. */
  lemma {:induction false} CutLogIsRead(before: Bytes, records: seq<Record>, cut: nat)
    requires (forall k :: 0 <= k < |records| ==> Writable(records[k])) && cut <= |Log(records)|
    ensures var n := WholeBefore(records, cut);
            && |Log(records[..n])| <= cut
            && ReadFrom(before + Log(records)[..cut], |before|) ==
                 (records[..n], if cut - |Log(records[..n])| < 8 then End else Failed(UnexpectedEof))
    decreases |records|
  {
    hide Written, Writable, Parts, NextItem;
    var data := before + Log(records)[..cut];
    if records == [] {
      CutFrameIsNotRead(before, 0, 0, [], 0);
      assert data == before + Framed(0, 0, [])[..0] && records[..0] == [];
    } else if cut < |Written(records[0])| {
      CutInARecord(before, records[0], Log(records[1..]), cut);
      assert records[..0] == [];
    } else {
      var (first, rest) := (Written(records[0]), Log(records[1..]));
      var m := cut - |first|;
      var n := WholeBefore(records[1..], m);
      RecordRoundTrip(before, records[0], rest[..m]);
      CutLogIsRead(before + first, records[1..], m);
      assert data == before + first + rest[..m];
      LogStarts(records, n);
      ReadOn(data, |before|, records[0], |before| + |first|);
      assert records[..n + 1] == [records[0]] + records[1..][..n];
    }
  }

  lemma LogStarts(records: seq<Record>, n: nat)
    requires n < |records|
    ensures Log(records[..n + 1]) == Written(records[0]) + Log(records[1..][..n])
  {
    assert records[..n + 1][1..] == records[1..][..n];
  }

  lemma ReadOn(data: Bytes, pos: nat, r: Record, next: nat)
    requires pos <= |data| && NextItem(data, pos) == (Got(r), next)
    ensures next <= |data| && ReadFrom(data, pos) == ([r] + ReadFrom(data, next).0, ReadFrom(data, next).1)
  {
  }

  lemma CutInARecord(before: Bytes, r: Record, after: Bytes, cut: nat)
    requires Writable(r) && cut < |Written(r)|
    ensures ReadFrom(before + (Written(r) + after)[..cut], |before|) == ([], if cut < 8 then End
              else Failed(UnexpectedEof))
  {
    var (tsUs, stream, payload) := Parts(r);
    PartsRoundTrip(r);
    assert (Written(r) + after)[..cut] == Written(r)[..cut];
    CutFrameIsNotRead(before, tsUs, stream, payload, cut);
    hide NextItem, Written, Parts;
  }

  /** A whole log is read back, record by record, to its end. */
  lemma LogRoundTrip(before: Bytes, records: seq<Record>)
    requires forall k :: 0 <= k < |records| ==> Writable(records[k])
    ensures ReadFrom(before + Log(records), |before|) == (records, End)
  {
    var cut := |Log(records)|;
    CutLogIsRead(before, records, cut);
    AllAreWhole(records);
    assert Log(records)[..cut] == Log(records) && records[..|records|] == records;
  }

  lemma {:induction false} AllAreWhole(records: seq<Record>)
    ensures WholeBefore(records, |Log(records)|) == |records|
  {
    if records != [] {
      AllAreWhole(records[1..]);
    }
  }

  /** Appending a record's bytes appends the record to the log. */
  lemma {:induction false} LogGrows(records: seq<Record>, r: Record)
    ensures Log(records + [r]) == Log(records) + Written(r)
  {
    hide Written;
    if records == [] {
      assert [r][1..] == [];
    } else {
      LogGrows(records[1..], r);
      assert (records + [r])[1..] == records[1..] + [r];
    }
  }

  // ── The recorder ────────────────────────────────────────────────────────────

  /** A frame's zones, eight to a row. */
  function Rolled<T>(zones: seq<T>): (rows: seq<seq<T>>)
    requires |zones| == 64
    ensures Is8x8(rows)
  {
    seq(TOF_ROWS, r requires 0 <= r < TOF_ROWS => zones[8 * r..8 * r + 8])
  }

  lemma UnrolledAgain<T>(zones: seq<T>)
    requires |zones| == 64
    ensures Unrolled(Rolled(zones)) == zones
  {
    var rows := Rolled(zones);
    UnrolledSize(rows, 8);
    hide Rolled;
    forall i | 0 <= i < 64 ensures Unrolled(rows)[i] == zones[i] {
      RowAndColumn(zones, i);
      UnrolledAt(rows, 8, i / 8, i % 8);
    }
  }

  lemma RowAndColumn<T>(zones: seq<T>, i: nat)
    requires |zones| == 64 && i < 64
    ensures i / 8 < 8 && i / 8 * 8 + i % 8 == i && Rolled(zones)[i / 8][i % 8] == zones[i]
  {
  }

  class SessionRecorder {
    var out: Bytes

    constructor (epochUnixMs: nat)
      requires epochUnixMs < U64
      ensures out == FileHeader(epochUnixMs)
    {
      out := MAGIC + LittleEndian(VERSION, 4) + LittleEndian(epochUnixMs, 8);
    }

    method WriteHeader(tsUs: nat, stream: Byte, size: nat)
      modifies this`out
      ensures out == old(out) + Header(tsUs, stream, size)
    {
      out := out + LittleEndian(tsUs, 8);
      out := out + [stream];
      out := out + LittleEndian(size, 4);
    }

    /** One depth frame: refused, and nothing written, when the zones do not match the
        rows and columns. `metres` stands for the conversion of a range to the four bytes
        of a float. An 8 x 8 frame is one the reader gives back zone by zone. */
    method Tof(tsUs: nat, senderTsS: F64, tNs: nat, rows: Byte, cols: Byte, distanceMm: seq<int>, status: Bytes,
        metres: int -> F32) returns (ok: bool)
      requires tsUs < U64 && tNs < U64
      modifies this`out
      ensures ok <==> |distanceMm| == |status| == rows as nat * cols as nat
      ensures !ok ==> out == old(out)
      ensures ok ==> out == old(out) + Framed(tsUs, STREAM_TOF,
                TofPayload(senderTsS, rows, cols, Metres(distanceMm, metres), status, tNs))
      ensures ok && rows == 8 && cols == 8 ==>
                var record := Record.Tof(TofRecord(tsUs, senderTsS, Rolled(Metres(distanceMm, metres)),
                    Rolled(status), tNs));
                Writable(record) && out == old(out) + Written(record)
    {
      hide Flat, LittleEndian;
      var n := rows as nat * cols as nat;
      if |distanceMm| != n || |status| != n {
        return false;
      }
      ghost var ranges := Metres(distanceMm, metres);
      WriteHeader(tsUs, STREAM_TOF, 12 + n * 4 + n + 8);
      out := out + senderTsS;
      out := out + [rows, cols, 0, 0];
      WriteRanges(distanceMm, metres);
      out := out + status;
      out := out + LittleEndian(tNs, 8);
      assert out == old(out) + Framed(tsUs, STREAM_TOF, TofPayload(senderTsS, rows, cols, ranges, status, tNs));
      if rows == 8 && cols == 8 {
        UnrolledAgain(ranges);
        UnrolledAgain(status);
      }
      return true;
    }

    method WriteRanges(distanceMm: seq<int>, metres: int -> F32)
      modifies this`out
      ensures out == old(out) + Flat(Metres(distanceMm, metres))
    {
      ghost var before := out;
      for k := 0 to |distanceMm|
        invariant out == before + Flat(Metres(distanceMm[..k], metres))
      {
        out := out + metres(distanceMm[k]);
        assert distanceMm[..k + 1][..k] == distanceMm[..k];
        FlatGrows(Metres(distanceMm[..k], metres), metres(distanceMm[k]));
      }
      assert distanceMm[..|distanceMm|] == distanceMm;
    }

    /** One control-loop tick. */
    method Odom(o: OdomRecord)
      requires Writable(Record.Odom(o))
      modifies this`out
      ensures out == old(out) + Written(Record.Odom(o))
    {
      hide Flat, LittleEndian, Header, Flags, OdomValues;
      ghost var before := out;
      var values := OdomValues(o);
      WriteHeader(o.tsUs, STREAM_ODOM, 11 * 4 + 1 + 8);
      WriteValues(values);
      out := out + [Flags(o.moving, o.sitting, o.fallen)];
      out := out + LittleEndian(o.tNs, 8);
      OdomIsWritten(before, o);
    }

    method WriteValues(values: seq<F32>)
      modifies this`out
      ensures out == old(out) + Flat(values)
    {
      for k := 0 to |values|
        invariant out == old(out) + Flat(values[..k])
      {
        out := out + values[k];
        assert values[..k + 1] == values[..k] + [values[k]];
        FlatGrows(values[..k], values[k]);
      }
      assert values[..|values|] == values;
    }
  }

  lemma OdomIsWritten(before: Bytes, o: OdomRecord)
    requires Writable(Record.Odom(o))
    ensures before + Header(o.tsUs, STREAM_ODOM, 53) + Flat(OdomValues(o)) + [Flags(o.moving, o.sitting, o.fallen)]
              + LittleEndian(o.tNs, 8)
              == before + Written(Record.Odom(o))
  {
    assert |OdomValues(o)| == 11;
    hide Flat, LittleEndian, Header, Flags;
    var payload := OdomPayload(o);
    assert payload == Flat(OdomValues(o)) + [Flags(o.moving, o.sitting, o.fallen)] + LittleEndian(o.tNs, 8);
    assert |payload| == 53;
  }

  function Metres(distanceMm: seq<int>, metres: int -> F32): (r: seq<F32>)
    ensures |r| == |distanceMm|
  {
    if distanceMm == [] then []
        else Metres(distanceMm[..|distanceMm| - 1], metres) + [metres(distanceMm[|distanceMm| - 1])]
  }

  lemma FlatGrows(fs: seq<F32>, f: F32)
    ensures Flat(fs + [f]) == Flat(fs) + f
  {
  }

  function FileHeader(epochUnixMs: nat): (b: Bytes)
    ensures |b| == 16
  {
    MAGIC + LittleEndian(VERSION, 4) + LittleEndian(epochUnixMs, 8)
  }

  // ── The replayer ────────────────────────────────────────────────────────────

  /** Where the records begin, if this is a log this version reads, and when it was
      taken. */
  function Opened(data: Bytes): Result
  {
    if |data| < 4 then Refused(UnexpectedEof)
    else if data[..4] != MAGIC then Refused(InvalidData)
    else if |data| < 8 then Refused(UnexpectedEof)
    else if FromLittleEndian(data[4..8]) != 1 && FromLittleEndian(data[4..8]) != 2 then Refused(InvalidData)
    else if |data| < 16 then Refused(UnexpectedEof)
    else Taken(16, FromLittleEndian(data[8..16]))
  }

  datatype Result = Taken(records: nat, epochUnixMs: nat) | Refused(error: Error)

  /** A log written and read back: it opens, and gives its records. */
  lemma SessionRoundTrip(epochUnixMs: nat, records: seq<Record>, cut: nat)
    requires epochUnixMs < U64 && (forall k :: 0 <= k < |records| ==> Writable(records[k])) && cut <= |Log(records)|
    ensures var data := FileHeader(epochUnixMs) + Log(records)[..cut];
            var n := WholeBefore(records, cut);
            && Opened(data) == Taken(16, epochUnixMs)
            && ReadFrom(data, 16) == (records[..n], if cut - |Log(records[..n])| < 8 then End
               else Failed(UnexpectedEof))
            && (cut == |Log(records)| ==> ReadFrom(data, 16) == (records, End))
  {
    var head := FileHeader(epochUnixMs);
    HeaderOpens(epochUnixMs, Log(records)[..cut]);
    hide *;
    CutLogIsRead(head, records, cut);
    AllAreWhole(records);
    assert records[..|records|] == records;
  }

  lemma HeaderOpens(epochUnixMs: nat, rest: Bytes)
    requires epochUnixMs < U64
    ensures Opened(FileHeader(epochUnixMs) + rest) == Taken(16, epochUnixMs)
  {
    var data := FileHeader(epochUnixMs) + rest;
    Pow256Of8();
    NumbersRoundTrip(epochUnixMs, 8);
    NumbersRoundTrip(VERSION, 4);
    hide LittleEndian, FromLittleEndian;
    assert data[..4] == MAGIC && data[4..8] == LittleEndian(VERSION, 4) && data[8..16] == LittleEndian(epochUnixMs, 8);
  }

  class SessionReplayer {
    const data: Bytes
    var pos: nat

    ghost predicate Valid()
      reads this
    {
      pos <= |data|
    }

    constructor (data: Bytes, pos: nat)
      requires pos <= |data|
      ensures Valid() && this.data == data && this.pos == pos
    {
      this.data, this.pos := data, pos;
    }

    /** Reads exactly `n` bytes; with fewer left, none, and the reader is at the end. */
    method ReadExact(n: nat) returns (b: Option<Bytes>)
      requires Valid()
      modifies this`pos
      ensures Valid()
      ensures if |data| - old(pos) < n then b == None && pos == |data|
                else b == Some(data[old(pos)..old(pos) + n]) && pos == old(pos) + n
    {
      if |data| - pos < n {
        pos := |data|;
        return None;
      }
      b := Some(data[pos..pos + n]);
      pos := pos + n;
    }

    /** One step of the log. */
    method Next() returns (item: Item)
      requires Valid()
      modifies this`pos
      ensures Valid() && (item, pos) == NextItem(data, old(pos))
    {
      hide FromLittleEndian, TofOf, OdomOf;
      var ts := ReadExact(8);
      if ts.None? {
        return End;
      }
      var stream := ReadExact(1);
      if stream.None? {
        return Failed(UnexpectedEof);
      }
      var size := ReadExact(4);
      if size.None? {
        return Failed(UnexpectedEof);
      }
      var payload := ReadExact(FromLittleEndian(size.value));
      if payload.None? {
        return Failed(UnexpectedEof);
      }
      var tsUs := FromLittleEndian(ts.value);
      if stream.value[0] == STREAM_TOF {
        item := DecodeTof(tsUs, payload.value);
      } else {
        item := Decoded(tsUs, stream.value[0], payload.value);
      }
    }

    /** A depth frame's payload, zone by zone. */
    method DecodeTof(tsUs: nat, payload: Bytes) returns (item: Item)
      ensures item == TofOf(tsUs, payload)
    {
      if |payload| < 12 {
        return Failed(InvalidData);
      }
      if payload[8] != TOF_ROWS || payload[9] != TOF_COLS {
        return Failed(InvalidData);
      }
      var n := TOF_ROWS * TOF_COLS;
      var need := 12 + n * 4 + n;
      if |payload| < need {
        return Failed(InvalidData);
      }
      var ranges: seq<seq<F32>>, status: seq<Bytes> := [], [];
      for r := 0 to TOF_ROWS
        invariant |ranges| == |status| == r
        invariant forall k :: 0 <= k < r ==> ranges[k] == RangeRow(payload, k) && status[k] == StatusRow(payload, k)
      {
        var rangeRow: seq<F32>, statusRow: Bytes := [], [];
        for c := 0 to TOF_COLS
          invariant |rangeRow| == |statusRow| == c
          invariant forall k ::
                    0 <= k < c ==>
                    rangeRow[k] == F32At(payload, 12 + (r * TOF_COLS + k) * 4)
                    && statusRow[k] == payload[12 + 64 * 4 + r * TOF_COLS + k]
        {
          rangeRow := rangeRow + [F32At(payload, 12 + (r * TOF_COLS + c) * 4)];
          statusRow := statusRow + [payload[12 + n * 4 + r * TOF_COLS + c]];
        }
        assert rangeRow == RangeRow(payload, r) && statusRow == StatusRow(payload, r);
        ranges, status := ranges + [rangeRow], status + [statusRow];
      }
      var tNs := if |payload| >= need + 8 then FromLittleEndian(payload[need..need + 8]) else 0;
      assert ranges == seq(TOF_ROWS, r requires 0 <= r < TOF_ROWS => RangeRow(payload, r));
      assert status == seq(TOF_ROWS, r requires 0 <= r < TOF_ROWS => StatusRow(payload, r));
      return Got(Record.Tof(TofRecord(tsUs, payload[0..8], ranges, status, tNs)));
    }
  }
}
