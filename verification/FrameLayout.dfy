/**
 The bytes on the wire and on disk, one by one: where each field of a frame stands, most
 significant byte first, the code of every enumerator, and the contents of a journal file.
 */
module FrameLayout {
  import opened Types
  import opened Codec
  import opened JournalFile

  // ---- Numbers ------------------------------------------------------------

  /** Four bytes hold a number, most significant first. */
  predicate Long(b: Bytes, at: nat, v: nat)
    requires at + 4 <= |b|
  {
    && b[at] == v / 0x100_0000 % 256 && b[at + 1] == v / 0x1_0000 % 256
    && b[at + 2] == v / 0x100 % 256 && b[at + 3] == v % 256
  }

  predicate LongLong(b: Bytes, at: nat, v: nat)
    requires at + 8 <= |b|
  {
    Long(b, at, v / 0x1_0000_0000) && Long(b, at + 4, v)
  }

  lemma DigitsOfFour(v: nat)
    ensures BigEndian(v, 4) == [v / 0x100_0000 % 256, v / 0x1_0000 % 256, v / 0x100 % 256, v % 256]
  {
    var a, b, c := v / 256, v / 256 / 256, v / 256 / 256 / 256;
    assert b == v / 0x1_0000 && c == v / 0x100_0000;
    assert BigEndian(c, 1) == [c % 256] by {
      assert BigEndian(c / 256, 0) == [];
    }
    assert BigEndian(b, 2) == BigEndian(c, 1) + [b % 256];
    assert BigEndian(a, 3) == BigEndian(b, 2) + [a % 256];
  }

  lemma DigitsOfEight(v: nat)
    ensures BigEndian(v, 8) == BigEndian(v / 0x1_0000_0000, 4) + BigEndian(v, 4)
  {
    var a, b, c, d := v / 256, v / 256 / 256, v / 256 / 256 / 256, v / 256 / 256 / 256 / 256;
    assert d == v / 0x1_0000_0000;
    var high := BigEndian(d, 4);
    assert BigEndian(c, 5) == high + [c % 256];
    assert BigEndian(b, 6) == high + [c % 256, b % 256];
    assert BigEndian(a, 7) == high + [c % 256, b % 256, a % 256];
    assert b == v / 0x1_0000 && c == v / 0x100_0000;
    DigitsOfFour(v);
  }

  lemma FourIsLong(v: nat, b: Bytes, at: nat)
    requires at + 4 <= |b| && b[at..at + 4] == BigEndian(v, 4)
    ensures Long(b, at, v)
  {
    hide BigEndian;
    DigitsOfFour(v);
    var s := b[at..at + 4];
    assert b[at] == s[0] && b[at + 1] == s[1] && b[at + 2] == s[2] && b[at + 3] == s[3];
  }

  lemma EightIsLongLong(v: nat, b: Bytes, at: nat)
    requires at + 8 <= |b| && b[at..at + 8] == BigEndian(v, 8)
    ensures LongLong(b, at, v)
  {
    hide BigEndian;
    DigitsOfEight(v);
    assert b[at..at + 8][..4] == b[at..at + 4] && b[at..at + 8][4..] == b[at + 4..at + 8];
    FourIsLong(v / 0x1_0000_0000, b, at);
    FourIsLong(v, b, at + 4);
  }

  // ---- Enumerators --------------------------------------------------------

  predicate KindByte(k: Kind, b: nat) {
    && (b == 1 <==> k == Command) && (b == 2 <==> k == Report) && (b == 3 <==> k == Delta) && (b == 4 <==> k == Heartbeat)
    && (b == 5 <==> k == SnapshotBegin) && (b == 6 <==> k == SnapshotOrder) && (b == 7 <==> k == SnapshotEnd)
  }

  predicate ActionByte(a: Action, b: nat) {
    && (b == 1 <==> a == New) && (b == 2 <==> a == Action.Cancel) && (b == 3 <==> a == Replace)
    && (b == 4 <==> a == CancelAll) && (b == 5 <==> a == Action.Snapshot) && (b == 6 <==> a == Status)
  }

  predicate SideByte(s: Side, b: nat) {
    (b == 0 <==> s == Bid) && (b == 1 <==> s == Ask)
  }

  predicate OrderTypeByte(t: OrderType, b: nat) {
    (b == 1 <==> t == Limit) && (b == 2 <==> t == Market)
  }

  predicate TifByte(t: TimeInForce, b: nat) {
    (b == 1 <==> t == GTC) && (b == 2 <==> t == IOC) && (b == 3 <==> t == FOK)
  }

  predicate ReportByte(t: ReportType, b: nat) {
    && (b == 1 <==> t == Accepted) && (b == 2 <==> t == Rejected) && (b == 3 <==> t == ReportType.Fill)
    && (b == 4 <==> t == ReportType.Cancelled) && (b == 5 <==> t == ReportType.Replaced) && (b == 6 <==> t == Complete)
    && (b == 7 <==> t == StatusReport)
  }

  predicate RejectByte(t: Reject, b: nat) {
    && (b == 0 <==> t == NoReject) && (b == 1 <==> t == InvalidCommand) && (b == 2 <==> t == UnknownInstrument)
    && (b == 3 <==> t == InvalidPrice) && (b == 4 <==> t == InvalidQuantity) && (b == 5 <==> t == DuplicateOrder)
    && (b == 6 <==> t == UnknownOrder) && (b == 7 <==> t == SequenceReject) && (b == 8 <==> t == PostOnly)
    && (b == 9 <==> t == Fok) && (b == 10 <==> t == SelfTrade) && (b == 11 <==> t == RiskQuantity)
    && (b == 12 <==> t == RiskNotional) && (b == 13 <==> t == RiskPosition) && (b == 14 <==> t == RiskOpenOrders)
    && (b == 15 <==> t == Reject.Capacity) && (b == 16 <==> t == SessionBusy) && (b == 17 <==> t == KillSwitch)
  }

  predicate UpdateByte(t: UpdateType, b: nat) {
    && (b == 1 <==> t == AddUpdate) && (b == 2 <==> t == CancelUpdate) && (b == 3 <==> t == ExecuteUpdate)
    && (b == 4 <==> t == ReduceUpdate) && (b == 5 <==> t == TradeUpdate)
  }

  // ---- The frame ----------------------------------------------------------

  /** The first sixteen bytes: the magic `LTR1`, the version, one byte per enumerator, two zeros. */
  predicate HeadBytes(b: Bytes, m: Message)
    requires |b| == 96
  {
    && b[0] == 0x4c && b[1] == 0x54 && b[2] == 0x52 && b[3] == 0x31 && b[4] == 1
    && KindByte(m.kind, b[5]) && ActionByte(m.action, b[6]) && SideByte(m.side, b[7]) && OrderTypeByte(m.orderType, b[8])
    && TifByte(m.tif, b[9]) && ReportByte(m.report, b[10]) && RejectByte(m.reject, b[11])
    && b[12] == (if m.postOnly then 1 else 0) && UpdateByte(m.update, b[13])
    && b[14] == 0 && b[15] == 0
  }

  /** The numbers of the message, and eight zeros. */
  predicate NumberBytes(b: Bytes, m: Message)
    requires |b| == 96
  {
    && LongLong(b, 16, m.epoch) && LongLong(b, 24, m.sequence) && Long(b, 32, m.clientId) && Long(b, 36, m.price)
    && LongLong(b, 40, m.requestId) && LongLong(b, 48, m.orderId) && LongLong(b, 56, m.exchangeId)
    && LongLong(b, 64, m.instrumentId) && Long(b, 72, m.quantity) && Long(b, 76, m.remaining)
    && LongLong(b, 80, m.tradeId) && LongLong(b, 88, 0)
  }

  /** Field `i` of a packed list stands between its offsets. */
  lemma FieldAt(m: Message, i: nat)
    requires i < |LAYOUT|
    ensures Offset(LAYOUT, i) <= Offset(LAYOUT, i + 1) <= |Encoded(m)|
    ensures Encoded(m)[Offset(LAYOUT, i)..Offset(LAYOUT, i + 1)] == BigEndian(Values(m)[i], LAYOUT[i])
  {
    hide BigEndian, Values, Pack;
    OffsetMonotone(LAYOUT, i, i + 1);
    PackedSlice(Values(m), LAYOUT, |LAYOUT|, i);
  }

  lemma OneByte(v: nat, b: Bytes, at: nat)
    requires at + 1 <= |b| && b[at..at + 1] == BigEndian(v, 1)
    ensures b[at] == v % 256
  {
    assert BigEndian(v / 256, 0) == [];
    assert b[at] == b[at..at + 1][0];
  }

  lemma ByteAt(m: Message, i: nat)
    requires i < |LAYOUT| && LAYOUT[i] == 1
    ensures Offset(LAYOUT, i) < |Encoded(m)|
    ensures Encoded(m)[Offset(LAYOUT, i)] == Values(m)[i] % 256
  {
    hide BigEndian, Values, Encoded;
    FieldAt(m, i);
    OneByte(Values(m)[i], Encoded(m), Offset(LAYOUT, i));
  }

  lemma LongAt(m: Message, i: nat)
    requires i < |LAYOUT| && LAYOUT[i] == 4
    ensures Offset(LAYOUT, i) + 4 <= |Encoded(m)|
    ensures Long(Encoded(m), Offset(LAYOUT, i), Values(m)[i])
  {
    hide BigEndian, Values, Encoded;
    FieldAt(m, i);
    FourIsLong(Values(m)[i], Encoded(m), Offset(LAYOUT, i));
  }

  lemma LongLongAt(m: Message, i: nat)
    requires i < |LAYOUT| && LAYOUT[i] == 8
    ensures Offset(LAYOUT, i) + 8 <= |Encoded(m)|
    ensures LongLong(Encoded(m), Offset(LAYOUT, i), Values(m)[i])
  {
    hide BigEndian, Values, Encoded;
    FieldAt(m, i);
    EightIsLongLong(Values(m)[i], Encoded(m), Offset(LAYOUT, i));
  }

  lemma StateCodes(m: Message)
    ensures KindByte(m.kind, KindCode(m.kind)) && ReportByte(m.report, ReportCode(m.report))
  {
  }

  lemma OrderCodes(m: Message)
    ensures ActionByte(m.action, ActionCode(m.action)) && UpdateByte(m.update, UpdateCode(m.update))
    ensures SideByte(m.side, SideCode(m.side)) && OrderTypeByte(m.orderType, OrderTypeCode(m.orderType))
    ensures TifByte(m.tif, TifCode(m.tif))
  {
  }

  lemma RefusalCodes(m: Message)
    ensures RejectByte(m.reject, RejectCode(m.reject))
  {
  }

  lemma PaddingAt(m: Message)
    ensures |Encoded(m)| == 96 && Encoded(m)[14] == 0 && Encoded(m)[15] == 0
  {
    hide BigEndian, Values, Encoded;
    Offsets();
    FieldAt(m, 11);
    HeadOf(m);
    assert Encoded(m)[14..16] == BigEndian(0, 2);
    TwoZeros();
    assert Encoded(m)[14] == Encoded(m)[14..16][0] && Encoded(m)[15] == Encoded(m)[14..16][1];
    FrameSize(m);
  }

  lemma TwoZeros()
    ensures BigEndian(0, 2) == [0, 0]
  {
    assert BigEndian(0, 1) == [0] by {
      assert BigEndian(0, 0) == [];
    }
  }

  lemma FrameSize(m: Message)
    ensures |Encoded(m)| == 96
  {
    hide Values;
    Offsets();
  }

  lemma StartBytes(m: Message)
    ensures var b := Encoded(m);
      && |b| == 96 && b[0] == 0x4c && b[1] == 0x54 && b[2] == 0x52 && b[3] == 0x31 && b[4] == 1
      && b[12] == (if m.postOnly then 1 else 0) && b[14] == 0 && b[15] == 0
  {
    hide Values, Encoded;
    Offsets();
    HeadOf(m);
    PaddingAt(m);
    LongAt(m, 0);
    assert Long(Encoded(m), 0, 0x4c54_5231);
    ByteAt(m, 1);
    ByteAt(m, 9);
  }

  lemma CodeAt(m: Message, i: nat, at: nat, v: Byte)
    requires i < |LAYOUT| && LAYOUT[i] == 1 && Offset(LAYOUT, i) == at && Values(m)[i] == v
    ensures at < |Encoded(m)| && Encoded(m)[at] == v
  {
    hide Values, Encoded, Offset, BigEndian;
    ByteAt(m, i);
  }

  lemma FirstCodeBytes(m: Message)
    ensures var b := Encoded(m);
      |b| == 96 && b[5] == KindCode(m.kind) && b[6] == ActionCode(m.action) && b[7] == SideCode(m.side)
  {
    hide Values, Encoded, KindCode, ActionCode, SideCode, OrderTypeCode, TifCode, ReportCode, RejectCode, UpdateCode;
    Offsets();
    hide Offset;
    FrameSize(m);
    HeadOf(m);
    CodeAt(m, 2, 5, KindCode(m.kind));
    CodeAt(m, 3, 6, ActionCode(m.action));
    CodeAt(m, 4, 7, SideCode(m.side));
  }

  lemma MiddleCodeBytes(m: Message)
    ensures var b := Encoded(m);
      |b| == 96 && b[8] == OrderTypeCode(m.orderType) && b[9] == TifCode(m.tif) && b[10] == ReportCode(m.report)
  {
    hide Values, Encoded, KindCode, ActionCode, SideCode, OrderTypeCode, TifCode, ReportCode, RejectCode, UpdateCode;
    Offsets();
    hide Offset;
    FrameSize(m);
    HeadOf(m);
    CodeAt(m, 5, 8, OrderTypeCode(m.orderType));
    CodeAt(m, 6, 9, TifCode(m.tif));
    CodeAt(m, 7, 10, ReportCode(m.report));
  }

  lemma LastCodeBytes(m: Message)
    ensures var b := Encoded(m); |b| == 96 && b[11] == RejectCode(m.reject) && b[13] == UpdateCode(m.update)
  {
    hide Values, Encoded, KindCode, ActionCode, SideCode, OrderTypeCode, TifCode, ReportCode, RejectCode, UpdateCode;
    Offsets();
    hide Offset;
    FrameSize(m);
    HeadOf(m);
    CodeAt(m, 8, 11, RejectCode(m.reject));
    CodeAt(m, 10, 13, UpdateCode(m.update));
  }

  lemma HeadLaw(m: Message)
    ensures |Encoded(m)| == 96 && HeadBytes(Encoded(m), m)
  {
    hide Values, Encoded, KindCode, ActionCode, SideCode, OrderTypeCode, TifCode, ReportCode, RejectCode, UpdateCode;
    hide KindByte, ActionByte, SideByte, OrderTypeByte, TifByte, ReportByte, RejectByte, UpdateByte;
    StartBytes(m);
    FirstCodeBytes(m);
    MiddleCodeBytes(m);
    LastCodeBytes(m);
    StateCodes(m);
    OrderCodes(m);
    RefusalCodes(m);
  }

  lemma NumbersLaw(m: Message)
    ensures |Encoded(m)| == 96 && NumberBytes(Encoded(m), m)
  {
    hide Values, Encoded, Long, LongLong;
    Offsets();
    FrameSize(m);
    FieldsOf(m);
    LongLongAt(m, 12);
    LongLongAt(m, 13);
    LongAt(m, 14);
    LongAt(m, 15);
    LongLongAt(m, 16);
    LongLongAt(m, 17);
    LongLongAt(m, 18);
    LongLongAt(m, 19);
    LongAt(m, 20);
    LongAt(m, 21);
    LongLongAt(m, 22);
    LongLongAt(m, 23);
  }

  /** Every byte of every frame. */
  lemma FrameLaw(m: Message)
    ensures |Encoded(m)| == 96 && HeadBytes(Encoded(m), m) && NumberBytes(Encoded(m), m)
  {
    hide HeadBytes, NumberBytes, Encoded;
    HeadLaw(m);
    NumbersLaw(m);
  }

  // ---- The checksum -------------------------------------------------------

  /** Bit `i` of a number. */
  function Bit(x: nat, i: nat): nat {
    if i == 0 then x % 2 else Bit(x / 2, i - 1)
  }

  lemma {:induction false} XorBitwise(x: nat, y: nat, n: nat, i: nat)
    requires i < n
    ensures Bit(XorBits(x, y, n), i) == (Bit(x, i) + Bit(y, i)) % 2
  {
    var z := XorBits(x, y, n);
    assert z / 2 == XorBits(x / 2, y / 2, n - 1);
    if i > 0 {
      XorBitwise(x / 2, y / 2, n - 1, i - 1);
    }
  }

  /** The checksum starts at the offset basis; each byte is xored in, bit by bit, before the prime is multiplied in. */
  lemma FnvLaw(s: Bytes, b: Byte)
    ensures Fnv([]) == 2166136261
    ensures exists x: nat ::
      && x / 256 == Fnv(s) / 256 && (forall i | 0 <= i < 8 :: Bit(x % 256, i) == (Bit(Fnv(s) % 256, i) + Bit(b, i)) % 2)
      && Fnv(s + [b]) == x * 16777619 % 0x1_0000_0000
  {
    var h := Fnv(s);
    var x := Xor(h, b);
    Byte8();
    assert (s + [b])[..|s|] == s;
    assert x / 256 == h / 256 && x % 256 == XorByte(h % 256, b);
    forall i | 0 <= i < 8 ensures Bit(x % 256, i) == (Bit(h % 256, i) + Bit(b, i)) % 2 {
      XorBitwise(h % 256, b, 8, i);
    }
  }

  // ---- The journal file ---------------------------------------------------

  /** What stands at the place of command `k`: its frame and the checksum of its frame. */
  predicate RecordAt(disk: Bytes, k: nat, c: Message) {
    var at := 16 + 100 * k;
    && at + 100 <= |disk| && disk[at..at + 96] == Encoded(c) && Long(disk, at + 96, Fnv(Encoded(c)))
  }

  lemma RecordLaw(c: Message)
    ensures var r := Record(c); |r| == 100 && r[..96] == Encoded(c) && Long(r, 96, Fnv(Encoded(c)))
  {
    hide Encoded, Fnv, BigEndian;
    FrameSize(c);
    var r := Record(c);
    assert r[96..100] == BigEndian(Fnv(Encoded(c)), 4);
    FourIsLong(Fnv(Encoded(c)), r, 96);
  }

  lemma LongIn(b: Bytes, from: nat, to: nat, at: nat, v: nat)
    requires from + at + 4 <= to <= |b| && Long(b[from..to], at, v)
    ensures Long(b, from + at, v)
  {
  }

  lemma {:induction false} LogAt(commands: seq<Message>, k: nat)
    requires k < |commands|
    ensures |Log(commands)| >= 100 * k + 100 && Log(commands)[100 * k..100 * k + 100] == Record(commands[k])
    decreases k
  {
    hide Record;
    RecordLaw(commands[0]);
    if k > 0 {
      LogAt(commands[1..], k - 1);
      var rest := Log(commands[1..]);
      assert Log(commands)[100 * k..100 * k + 100] == rest[100 * (k - 1)..100 * (k - 1) + 100];
    }
  }

  lemma {:induction false} LogSize(commands: seq<Message>)
    ensures |Log(commands)| == 100 * |commands|
  {
    hide Record;
    if commands != [] {
      RecordLaw(commands[0]);
      LogSize(commands[1..]);
    }
  }

  /** The bytes of a file that opens, and the commands that come out of it. */
  lemma FileLaw(config: nat, disk: Bytes, commands: seq<Message>)
    requires Opened(config, disk) == Recovered(commands) && disk != []
    ensures |disk| == 16 + 100 * |commands|
    ensures disk[..8] == [0x4c, 0x4a, 0x52, 0x31, 1, 0, 0, 0] && LongLong(disk, 8, config)
    ensures forall k | 0 <= k < |commands| :: RecordAt(disk, k, commands[k])
    ensures forall k | 0 <= k < |commands| ::
      commands[k].kind == Command && commands[k].action in {New, Action.Cancel, Replace, CancelAll}
  {
    hide Opened, Log, Record, WellTyped, BigEndian, LongLong, Long, Encoded, Fnv;
    AcceptedIffWritten(config, disk, commands);
    LogSize(commands);
    assert disk[..8] == [0x4c, 0x4a, 0x52, 0x31, 1, 0, 0, 0];
    assert disk[8..16] == BigEndian(config, 8);
    EightIsLongLong(config, disk, 8);
    forall k | 0 <= k < |commands| ensures RecordAt(disk, k, commands[k]) {
      LogAt(commands, k);
      RecordLaw(commands[k]);
      var at := 16 + 100 * k;
      assert disk[at..at + 100] == Record(commands[k]);
      assert disk[at..at + 96] == disk[at..at + 100][..96];
      LongIn(disk, at, at + 100, 96, Fnv(Encoded(commands[k])));
    }
  }

  /** A record is read back exactly if it holds a command that enters, cancels or replaces orders. */
  lemma ReadBackLaw(m: Message)
    requires WellTyped(m)
    ensures |Record(m)| == RECORD_SIZE
    ensures ReadRecord(Record(m))
         == if m.kind == Command && m.action in {New, Action.Cancel, Replace, CancelAll} then Some(m) else None
  {
    hide Record, ReadRecord, WellTyped;
    RecordReads(m);
  }
}
