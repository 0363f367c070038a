/**
 The 96-byte big-endian frame that carries one message on every socket, queue file and
 journal record.

 A frame is a list of fixed-width unsigned fields. Packing such a list and slicing it
 apart again are inverse for every layout (`PackedField`, `PackUnpack`); the message codec
 is the instance for `LAYOUT`, and `EncodeDecode` and `DecodeEncode` say that the two
 directions are inverse between messages and accepted frames.
 */
module Codec {
  import opened Types

  type Byte = b: nat | b < 256
  type Bytes = seq<Byte>

  const FRAME_SIZE := 96
  const MAGIC := 0x4c545231
  const VERSION := 1

  // ---- Big-endian numbers -------------------------------------------------

  function Power(n: nat): (r: nat)
    ensures r >= 1
  {
    if n == 0 then 1 else 256 * Power(n - 1)
  }

  function BigEndian(value: nat, width: nat): (r: Bytes)
    ensures |r| == width
  {
    if width == 0 then [] else BigEndian(value / 256, width - 1) + [value % 256]
  }

  function Value(s: Bytes): nat {
    if s == [] then 0 else Value(s[..|s| - 1]) * 256 + s[|s| - 1]
  }

  lemma {:induction false} ValueOfBigEndian(value: nat, width: nat)
    ensures value < Power(width) ==> Value(BigEndian(value, width)) == value
  {
    if width > 0 {
      ValueOfBigEndian(value / 256, width - 1);
      var s := BigEndian(value, width);
      assert s[..width - 1] == BigEndian(value / 256, width - 1);
    }
  }

  lemma {:induction false} BigEndianOfValue(s: Bytes)
    ensures BigEndian(Value(s), |s|) == s && Value(s) < Power(|s|)
  {
    if s != [] {
      BigEndianOfValue(s[..|s| - 1]);
      assert s == s[..|s| - 1] + [s[|s| - 1]];
    }
  }

  lemma {:induction false} ZeroValue(s: Bytes)
    ensures Value(s) == 0 <==> forall i | 0 <= i < |s| :: s[i] == 0
  {
    if s != [] {
      ZeroValue(s[..|s| - 1]);
      assert forall i | 0 <= i < |s| - 1 :: s[..|s| - 1][i] == s[i];
    }
  }

  /** Two byte strings of one length with one value are equal. */
  lemma ValueInjective(s: Bytes, t: Bytes)
    requires |s| == |t|
    ensures Value(s) == Value(t) <==> s == t
  {
    BigEndianOfValue(s);
    BigEndianOfValue(t);
  }

  // ---- Fixed-width layouts ------------------------------------------------

  /** Where field `i` starts. */
  function Offset(widths: seq<nat>, i: nat): nat
    requires i <= |widths|
  {
    if i == 0 then 0 else Offset(widths, i - 1) + widths[i - 1]
  }

  /** The first `n` fields, packed. */
  function Pack(values: seq<nat>, widths: seq<nat>, n: nat): (r: Bytes)
    requires n <= |values| == |widths|
    ensures |r| == Offset(widths, n)
  {
    if n == 0 then [] else Pack(values, widths, n - 1) + BigEndian(values[n - 1], widths[n - 1])
  }

  lemma {:induction false} OffsetMonotone(widths: seq<nat>, i: nat, n: nat)
    requires i <= n <= |widths|
    ensures Offset(widths, i) <= Offset(widths, n)
    decreases n
  {
    if i < n {
      OffsetMonotone(widths, i, n - 1);
    }
  }

  /** Field `i` of a byte string of the layout's length. */
  function Field(b: Bytes, widths: seq<nat>, i: nat): nat
    requires i < |widths| && |b| == Offset(widths, |widths|)
  {
    OffsetMonotone(widths, i + 1, |widths|);
    Value(b[Offset(widths, i)..Offset(widths, i + 1)])
  }

  lemma {:induction false} PackedSlice(values: seq<nat>, widths: seq<nat>, n: nat, i: nat)
    requires i < n <= |values| == |widths|
    ensures Offset(widths, i + 1) <= Offset(widths, n)
    ensures Pack(values, widths, n)[Offset(widths, i)..Offset(widths, i + 1)] == BigEndian(values[i], widths[i])
    decreases n
  {
    OffsetMonotone(widths, i + 1, n);
    var front, last := Pack(values, widths, n - 1), BigEndian(values[n - 1], widths[n - 1]);
    var from, to := Offset(widths, i), Offset(widths, i + 1);
    hide BigEndian;
    assert Pack(values, widths, n) == front + last;
    if i == n - 1 {
      assert (front + last)[from..to] == last;
    } else {
      PackedSlice(values, widths, n - 1, i);
      assert (front + last)[from..to] == front[from..to];
    }
  }

  /** Slicing a packed list apart gives back every value that fits its field. */
  lemma PackedField(values: seq<nat>, widths: seq<nat>, i: nat)
    requires i < |values| == |widths|
    requires values[i] < Power(widths[i])
    ensures Field(Pack(values, widths, |widths|), widths, i) == values[i]
  {
    PackedSlice(values, widths, |widths|, i);
    ValueOfBigEndian(values[i], widths[i]);
  }

  /** The slice of a field, packed again. */
  lemma FieldPacks(b: Bytes, widths: seq<nat>, i: nat)
    requires i < |widths| && |b| == Offset(widths, |widths|)
    ensures Offset(widths, i + 1) <= |b|
    ensures b[..Offset(widths, i + 1)] == b[..Offset(widths, i)] + BigEndian(Field(b, widths, i), widths[i])
  {
    OffsetMonotone(widths, i + 1, |widths|);
    var from, to := Offset(widths, i), Offset(widths, i + 1);
    BigEndianOfValue(b[from..to]);
    hide BigEndian, Value;
    assert b[..to] == b[..from] + b[from..to];
  }

  /** Packing the slices of a byte string gives the byte string back. */
  lemma {:induction false} PackUnpack(b: Bytes, values: seq<nat>, widths: seq<nat>, n: nat)
    requires n <= |values| == |widths| && Offset(widths, |widths|) == |b|
    requires forall i | 0 <= i < n :: values[i] == Field(b, widths, i)
    ensures Offset(widths, n) <= |b| && Pack(values, widths, n) == b[..Offset(widths, n)]
  {
    hide BigEndian, Field;
    if n > 0 {
      PackUnpack(b, values, widths, n - 1);
      FieldPacks(b, widths, n - 1);
    }
  }

  // ---- The message frame --------------------------------------------------

  const LAYOUT: seq<nat> := [4, 1, 1, 1, 1, 1, 1, 1, 1, 1, 1, 2, 8, 8, 4, 4, 8, 8, 8, 8, 4, 4, 8, 8]

  /** The fields fit the C++ types that hold them. */
  predicate WellTyped(m: Message) {
    && m.epoch < Power(8)
    && m.sequence < Power(8)
    && m.clientId < Power(4)
    && m.price < Power(4)
    && m.requestId < Power(8)
    && m.orderId < Power(8)
    && m.exchangeId < Power(8)
    && m.instrumentId < Power(8)
    && m.quantity < Power(4)
    && m.remaining < Power(4)
    && m.tradeId < Power(8)
  }

  // The enumerators in the order of their codes.
  const KINDS := [Command, Report, Delta, Heartbeat, SnapshotBegin, SnapshotOrder, SnapshotEnd]
  const ACTIONS := [New, Cancel, Replace, CancelAll, Snapshot, Status]
  const SIDES := [Bid, Ask]
  const ORDER_TYPES := [Limit, Market]
  const TIFS := [GTC, IOC, FOK]
  const REPORTS := [Accepted, Rejected, Fill, Cancelled, Replaced, Complete, StatusReport]
  const UPDATES := [AddUpdate, CancelUpdate, ExecuteUpdate, ReduceUpdate, TradeUpdate]
  const REJECTS := [
    NoReject, InvalidCommand, UnknownInstrument, InvalidPrice, InvalidQuantity, DuplicateOrder,
    UnknownOrder, SequenceReject, PostOnly, Fok, SelfTrade, RiskQuantity, RiskNotional, RiskPosition,
    RiskOpenOrders, Capacity, SessionBusy, KillSwitch
  ]

  function KindCode(k: Kind): (r: Byte)
    ensures 1 <= r <= 7 && KINDS[r - 1] == k
  {
    match k
    case Command => 1
    case Report => 2
    case Delta => 3
    case Heartbeat => 4
    case SnapshotBegin => 5
    case SnapshotOrder => 6
    case SnapshotEnd => 7
  }

  function ActionCode(a: Action): (r: Byte)
    ensures 1 <= r <= 6 && ACTIONS[r - 1] == a
  {
    match a
    case New => 1
    case Cancel => 2
    case Replace => 3
    case CancelAll => 4
    case Snapshot => 5
    case Status => 6
  }

  function SideCode(s: Side): (r: Byte)
    ensures r <= 1 && SIDES[r] == s
  {
    match s
    case Bid => 0
    case Ask => 1
  }

  function OrderTypeCode(t: OrderType): (r: Byte)
    ensures 1 <= r <= 2 && ORDER_TYPES[r - 1] == t
  {
    match t
    case Limit => 1
    case Market => 2
  }

  function TifCode(t: TimeInForce): (r: Byte)
    ensures 1 <= r <= 3 && TIFS[r - 1] == t
  {
    match t
    case GTC => 1
    case IOC => 2
    case FOK => 3
  }

  function ReportCode(t: ReportType): (r: Byte)
    ensures 1 <= r <= 7 && REPORTS[r - 1] == t
  {
    match t
    case Accepted => 1
    case Rejected => 2
    case Fill => 3
    case Cancelled => 4
    case Replaced => 5
    case Complete => 6
    case StatusReport => 7
  }

  function UpdateCode(t: UpdateType): (r: Byte)
    ensures 1 <= r <= 5 && UPDATES[r - 1] == t
  {
    match t
    case AddUpdate => 1
    case CancelUpdate => 2
    case ExecuteUpdate => 3
    case ReduceUpdate => 4
    case TradeUpdate => 5
  }

  function RejectCode(t: Reject): (r: Byte)
    ensures r <= 17 && REJECTS[r] == t
  {
    match t
    case NoReject => 0
    case InvalidCommand => 1
    case UnknownInstrument => 2
    case InvalidPrice => 3
    case InvalidQuantity => 4
    case DuplicateOrder => 5
    case UnknownOrder => 6
    case SequenceReject => 7
    case PostOnly => 8
    case Fok => 9
    case SelfTrade => 10
    case RiskQuantity => 11
    case RiskNotional => 12
    case RiskPosition => 13
    case RiskOpenOrders => 14
    case Capacity => 15
    case SessionBusy => 16
    case KillSwitch => 17
  }

  /** The values of the frame's fields for a message. */
  function Values(m: Message): (r: seq<nat>)
    ensures |r| == |LAYOUT|
  {
    [ MAGIC, VERSION, KindCode(m.kind), ActionCode(m.action), SideCode(m.side), OrderTypeCode(m.orderType),
      TifCode(m.tif), ReportCode(m.report), RejectCode(m.reject), if m.postOnly then 1 else 0,
      UpdateCode(m.update), 0, m.epoch, m.sequence, m.clientId, m.price, m.requestId, m.orderId,
      m.exchangeId, m.instrumentId, m.quantity, m.remaining, m.tradeId, 0 ]
  }

  /** The frame of a message. */
  function Encoded(m: Message): Bytes {
    Pack(Values(m), LAYOUT, |LAYOUT|)
  }

  /** The field values a receiver accepts. */
  predicate Acceptable(v: seq<nat>)
    requires |v| == |LAYOUT|
  {
    && v[0] == MAGIC && v[1] == VERSION && 1 <= v[2] <= 7 && 1 <= v[3] <= 6 && v[4] <= 1 && 1 <= v[5] <= 2
    && 1 <= v[6] <= 3 && 1 <= v[7] <= 7 && v[8] <= 17 && v[9] <= 1 && 1 <= v[10] <= 5 && v[11] == 0 && v[23] == 0
  }

  function FromValues(v: seq<nat>): Message
    requires |v| == |LAYOUT| && Acceptable(v)
  {
    Message(KINDS[v[2] - 1], ACTIONS[v[3] - 1], SIDES[v[4]], ORDER_TYPES[v[5] - 1], TIFS[v[6] - 1],
            REPORTS[v[7] - 1], REJECTS[v[8]], UPDATES[v[10] - 1], v[9] != 0,
            v[12], v[13], v[14], v[15], v[16], v[17], v[18], v[19], v[20], v[21], v[22])
  }

  function Fields(b: Bytes): (r: seq<nat>)
    requires |b| == FRAME_SIZE
    ensures |r| == |LAYOUT|
  {
    FieldsFit();
    seq(|LAYOUT|, i requires 0 <= i < |LAYOUT| => Field(b, LAYOUT, i))
  }

  /** The message in a frame, if a receiver accepts the frame. */
  function Decoded(b: Bytes): Option<Message>
    requires |b| == FRAME_SIZE
  {
    if Acceptable(Fields(b)) then Some(FromValues(Fields(b))) else None
  }

  lemma FieldsFit()
    ensures Offset(LAYOUT, |LAYOUT|) == FRAME_SIZE
  {
    Offsets();
  }

  /** Where the fields of the frame stand. */
  lemma Offsets()
    ensures Offset(LAYOUT, 0) == 0 && Offset(LAYOUT, 1) == 4 && Offset(LAYOUT, 2) == 5
    ensures Offset(LAYOUT, 3) == 6 && Offset(LAYOUT, 4) == 7 && Offset(LAYOUT, 5) == 8
    ensures Offset(LAYOUT, 6) == 9 && Offset(LAYOUT, 7) == 10 && Offset(LAYOUT, 8) == 11
    ensures Offset(LAYOUT, 9) == 12 && Offset(LAYOUT, 10) == 13 && Offset(LAYOUT, 11) == 14
    ensures Offset(LAYOUT, 12) == 16 && Offset(LAYOUT, 13) == 24 && Offset(LAYOUT, 14) == 32
    ensures Offset(LAYOUT, 15) == 36 && Offset(LAYOUT, 16) == 40 && Offset(LAYOUT, 17) == 48
    ensures Offset(LAYOUT, 18) == 56 && Offset(LAYOUT, 19) == 64 && Offset(LAYOUT, 20) == 72
    ensures Offset(LAYOUT, 21) == 76 && Offset(LAYOUT, 22) == 80 && Offset(LAYOUT, 23) == 88
    ensures Offset(LAYOUT, 24) == 96
  {
    var w := LAYOUT;
    assert w[0] == 4 && w[11] == 2 && w[12] == 8 && w[13] == 8 && w[14] == 4 && w[15] == 4;
  }

  // ---- Both directions ----------------------------------------------------

  lemma Widths()
    ensures Power(1) == 0x100 && Power(2) == 0x1_0000 && Power(4) == 0x1_0000_0000
    ensures Power(8) == 0x1_0000_0000_0000_0000
  {
    assert Power(6) == 256 * 256 * Power(4);
  }

  lemma ValuesFit(m: Message)
    requires WellTyped(m)
    ensures forall i | 0 <= i < |LAYOUT| :: Values(m)[i] < Power(LAYOUT[i])
  {
    Widths();
  }

  lemma FieldsOfEncoded(m: Message)
    requires WellTyped(m)
    ensures |Encoded(m)| == FRAME_SIZE && Fields(Encoded(m)) == Values(m)
  {
    hide Pack, Values, Offset, Field, WellTyped;
    FieldsFit();
    ValuesFit(m);
    forall i | 0 <= i < |LAYOUT| ensures Field(Encoded(m), LAYOUT, i) == Values(m)[i] {
      PackedField(Values(m), LAYOUT, i);
    }
  }

  /** A receiver reads exactly the message that was sent. */
  lemma EncodeDecode(m: Message)
    requires WellTyped(m)
    ensures |Encoded(m)| == FRAME_SIZE && Decoded(Encoded(m)) == Some(m)
  {
    hide Encoded, Fields, WellTyped;
    FieldsOfEncoded(m);
    FromItsValues(m);
  }

  lemma FromItsValues(m: Message)
    ensures Acceptable(Values(m)) && FromValues(Values(m)) == m
  {
    HeadOf(m);
    FieldsOf(m);
    hide Values, KindCode, ActionCode, OrderTypeCode, TifCode, ReportCode, RejectCode, UpdateCode, SideCode;
  }

  /** Every accepted frame is the frame of the message read from it: there is one frame per message. */
  lemma DecodeEncode(b: Bytes)
    requires |b| == FRAME_SIZE && Decoded(b).Some?
    ensures WellTyped(Decoded(b).value) && Encoded(Decoded(b).value) == b
  {
    var v := Fields(b);
    ItsValues(v);
    hide Acceptable, FromValues, Values;
    FieldsFit();
    hide Offset;
    PackUnpack(b, v, LAYOUT, |LAYOUT|);
    FieldsBounded(b);
    assert b[..FRAME_SIZE] == b;
  }

  lemma ItsValues(v: seq<nat>)
    requires |v| == |LAYOUT| && Acceptable(v)
    ensures Values(FromValues(v)) == v
  {
    OfKinds(v[2]);
    OfRejects(v[8]);
    OfReports(v[7]);
    OfSmall(v[3], v[4], v[5], v[6], v[10]);
    hide KindCode, ActionCode, SideCode, OrderTypeCode, TifCode, ReportCode, RejectCode, UpdateCode;
    hide KINDS, ACTIONS, SIDES, ORDER_TYPES, TIFS, REPORTS, REJECTS, UPDATES;
    var m := FromValues(v);
    HeadOf(m);
    FieldsOf(m);
    hide Values;
    assert Values(m)[..12] == v[..12];
    assert Values(m)[12..] == v[12..];
    assert v == v[..12] + v[12..] && Values(m) == Values(m)[..12] + Values(m)[12..];
  }

  lemma OfKinds(c: nat)
    requires 1 <= c <= 7
    ensures KindCode(KINDS[c - 1]) == c
  {
  }

  lemma OfReports(c: nat)
    requires 1 <= c <= 7
    ensures ReportCode(REPORTS[c - 1]) == c
  {
  }

  lemma OfRejects(c: nat)
    requires c <= 17
    ensures RejectCode(REJECTS[c]) == c
  {
  }

  lemma OfSmall(action: nat, side: nat, orderType: nat, tif: nat, update: nat)
    requires 1 <= action <= 6 && side <= 1 && 1 <= orderType <= 2 && 1 <= tif <= 3 && 1 <= update <= 5
    ensures ActionCode(ACTIONS[action - 1]) == action && SideCode(SIDES[side]) == side
    ensures OrderTypeCode(ORDER_TYPES[orderType - 1]) == orderType && TifCode(TIFS[tif - 1]) == tif
    ensures UpdateCode(UPDATES[update - 1]) == update
  {
  }

  lemma FieldsBounded(b: Bytes)
    requires |b| == FRAME_SIZE
    ensures forall i | 0 <= i < |LAYOUT| :: Fields(b)[i] < Power(LAYOUT[i])
  {
    hide Power;
    FieldsFit();
    forall i | 0 <= i < |LAYOUT| ensures Field(b, LAYOUT, i) < Power(LAYOUT[i]) {
      OffsetMonotone(LAYOUT, i + 1, |LAYOUT|);
      BigEndianOfValue(b[Offset(LAYOUT, i)..Offset(LAYOUT, i + 1)]);
    }
  }

  /** The number in `count` bytes of a string. */
  function Word(b: Bytes, at: nat, count: nat): nat
    requires at + count <= |b|
  {
    Value(b[at..at + count])
  }

  // ---- In place -----------------------------------------------------------

  /** The lowest byte joins the bytes already written. */
  lemma ShiftOut(rest: nat, i: nat, tail: Bytes)
    requires i > 0
    ensures BigEndian(rest, i) + tail == BigEndian(rest / 256, i - 1) + ([rest % 256] + tail)
  {
    assert BigEndian(rest, i) == BigEndian(rest / 256, i - 1) + [rest % 256];
  }

  lemma PokeBefore(before: Bytes, at: nat, i: nat, count: nat, tail: Bytes, x: Byte)
    requires 0 < i <= count && at + count <= |before| && |tail| == count - i
    ensures (before[..at + i] + tail + before[at + count..])[at + i - 1 := x]
         == before[..at + i - 1] + ([x] + tail) + before[at + count..]
  {
  }

  /** Writes the low `count` bytes of `value`, most significant first. */
  method Put(bytes: array<Byte>, at: nat, value: nat, count: nat)
    requires at + count <= bytes.Length
    modifies bytes
    ensures bytes[..] == old(bytes[..at]) + BigEndian(value, count) + old(bytes[at + count..])
  {
    var rest := value;
    var i: nat := count;
    ghost var before, tail: Bytes := bytes[..], [];
    assert before == before[..at + count] + [] + before[at + count..];
    assert BigEndian(value, count) + [] == BigEndian(value, count);
    while i != 0
      invariant i <= count
      invariant |tail| == count - i && BigEndian(value, count) == BigEndian(rest, i) + tail
      invariant bytes[..] == before[..at + i] + tail + before[at + count..]
    {
      ShiftOut(rest, i, tail);
      hide BigEndian;
      PokeBefore(before, at, i, count, tail, rest % 256);
      bytes[at + i - 1] := rest % 256;
      tail := [rest % 256] + tail;
      rest := rest / 256;
      i := i - 1;
    }
    assert BigEndian(value, count) == tail;
  }

  /** Reads `count` bytes, most significant first, into a 64-bit word. */
  method Get(bytes: array<Byte>, at: nat, count: nat) returns (value: nat)
    requires at + count <= bytes.Length && count <= 8
    ensures value == Word(bytes[..], at, count)
  {
    value := 0;
    var i := 0;
    while i != count
      invariant i <= count && value == Word(bytes[..], at, i)
    {
      ShiftIn(bytes[..], at, i);
      value := value * 256 % 0x1_0000_0000_0000_0000 + bytes[at + i];
      i := i + 1;
    }
  }

  /** One more byte of a number that is being read into a 64-bit word. */
  lemma ShiftIn(b: Bytes, at: nat, i: nat)
    requires at + i < |b| && i < 8
    ensures Word(b, at, i + 1) == Word(b, at, i) * 256 % 0x1_0000_0000_0000_0000 + b[at + i]
  {
    BigEndianOfValue(b[at..at + i]);
    Shifts(Word(b, at, i), i);
    assert b[at..at + i + 1][..i] == b[at..at + i];
  }

  /** Fewer than eight bytes can be shifted up without losing a bit. */
  lemma {:induction false} Shifts(value: nat, i: nat)
    requires i < 8 && value < Power(i)
    ensures value * 256 < 0x1_0000_0000_0000_0000
  {
    Widths();
    Grows(i, 7);
    assert Power(8) == 256 * Power(7);
  }

  lemma {:induction false} Grows(i: nat, j: nat)
    requires i <= j
    ensures Power(i) <= Power(j)
    decreases j
  {
    if i < j {
      Grows(i, j - 1);
    }
  }

  /** The first `n` fields have been written and the rest is still zero. */
  ghost predicate Filled(b: Bytes, v: seq<nat>, n: nat)
    requires n <= |v| == |LAYOUT|
  {
    && |b| == FRAME_SIZE
    && Offset(LAYOUT, n) <= FRAME_SIZE
    && b[..Offset(LAYOUT, n)] == Pack(v, LAYOUT, n)
    && forall j | Offset(LAYOUT, n) <= j < FRAME_SIZE :: b[j] == 0
  }

  lemma FillNext(before: Bytes, after: Bytes, v: seq<nat>, n: nat, at: nat, count: nat)
    requires n < |v| == |LAYOUT| && Filled(before, v, n)
    requires at == Offset(LAYOUT, n) && count == LAYOUT[n] && at + count <= FRAME_SIZE
    requires after == before[..at] + BigEndian(v[n], count) + before[at + count..]
    ensures Filled(after, v, n + 1)
  {
    hide BigEndian, LAYOUT;
    assert after[..at + count] == before[..at] + BigEndian(v[n], count);
    assert forall j | at + count <= j < FRAME_SIZE :: after[j] == before[j];
  }

  lemma Poked(b: Bytes, at: nat, x: Byte)
    requires at < |b|
    ensures b[at := x] == b[..at] + BigEndian(x, 1) + b[at + 1..]
  {
    assert BigEndian(x, 1) == [x];
  }

  lemma FillByte(before: Bytes, v: seq<nat>, n: nat, x: Byte, at: nat)
    requires n < |v| == |LAYOUT| && Filled(before, v, n)
    requires at == Offset(LAYOUT, n) && LAYOUT[n] == 1 && at < FRAME_SIZE && v[n] == x
    ensures Filled(before[at := x], v, n + 1)
  {
    assert |before| == FRAME_SIZE;
    hide Filled, Offset, LAYOUT;
    Poked(before, at, x);
    FillNext(before, before[at := x], v, n, at, 1);
  }

  lemma FillZero(b: Bytes, v: seq<nat>, n: nat)
    requires n < |v| == |LAYOUT| && Filled(b, v, n) && v[n] == 0
    requires Offset(LAYOUT, n) + LAYOUT[n] <= FRAME_SIZE
    ensures Filled(b, v, n + 1)
  {
    var at, count := Offset(LAYOUT, n), LAYOUT[n];
    var z := seq(count, _ => 0 as Byte);
    ZeroValue(z);
    BigEndianOfValue(z);
    assert b == b[..at] + z + b[at + count..];
    FillNext(b, b, v, n, at, count);
  }

  /** The first sixteen bytes: magic, version, enumerations, padding. */
  method EncodeHead(m: Message, b: array<Byte>)
    requires b.Length == FRAME_SIZE && forall j | 0 <= j < FRAME_SIZE :: b[j] == 0
    modifies b
    ensures Filled(b[..], Values(m), 12)
  {
    ghost var v := Values(m);
    HeadOf(m);
    Offsets();
    assert Filled(b[..], v, 0);
    hide Filled, Offset, BigEndian, Values;
    hide KindCode, ActionCode, OrderTypeCode, TifCode, ReportCode, RejectCode, UpdateCode;
    EncodeNext(b, 0, MAGIC, 4, v, 0);
    EncodeByte(b, 4, VERSION, v, 1);
    EncodeByte(b, 5, KindCode(m.kind), v, 2);
    EncodeByte(b, 6, ActionCode(m.action), v, 3);
    EncodeByte(b, 7, if m.side == Bid then 0 else 1, v, 4);
    EncodeByte(b, 8, OrderTypeCode(m.orderType), v, 5);
    EncodeByte(b, 9, TifCode(m.tif), v, 6);
    EncodeByte(b, 10, ReportCode(m.report), v, 7);
    EncodeByte(b, 11, RejectCode(m.reject), v, 8);
    EncodeByte(b, 12, if m.postOnly then 1 else 0, v, 9);
    EncodeByte(b, 13, UpdateCode(m.update), v, 10);
    FillZero(b[..], v, 11);
  }

  method EncodeByte(b: array<Byte>, at: nat, value: Byte, ghost v: seq<nat>, ghost n: nat)
    requires b.Length == FRAME_SIZE && n < |v| == |LAYOUT| && Filled(b[..], v, n)
    requires v[n] == value && at == Offset(LAYOUT, n) && LAYOUT[n] == 1 && at < FRAME_SIZE
    modifies b
    ensures Filled(b[..], v, n + 1)
  {
    hide Filled;
    FillByte(b[..], v, n, value, at);
    b[at] := value;
    assert b[..] == old(b[..])[at := value];
  }

  method EncodeNext(b: array<Byte>, at: nat, value: nat, count: nat, ghost v: seq<nat>, ghost n: nat)
    requires b.Length == FRAME_SIZE && n < |v| == |LAYOUT| && Filled(b[..], v, n)
    requires v[n] == value && at == Offset(LAYOUT, n) && count == LAYOUT[n] && at + count <= FRAME_SIZE
    modifies b
    ensures Filled(b[..], v, n + 1)
  {
    ghost var s := b[..];
    Put(b, at, value, count);
    hide Filled;
    assert s[..at] == old(b[..at]) && s[at + count..] == old(b[at + count..]);
    FillNext(s, b[..], v, n, at, count);
  }

  /** The frame of a message, filled in place. */
  method Encode(m: Message) returns (b: array<Byte>)
    requires WellTyped(m)
    ensures fresh(b) && b.Length == FRAME_SIZE && b[..] == Encoded(m) && Decoded(b[..]) == Some(m)
  {
    b := new Byte[FRAME_SIZE](_ => 0);
    EncodeHead(m, b);
    ghost var v := Values(m);
    FieldsOf(m);
    Offsets();
    hide Filled, Values, Offset;
    EncodeNext(b, 16, m.epoch, 8, v, 12);
    EncodeNext(b, 24, m.sequence, 8, v, 13);
    EncodeNext(b, 32, m.clientId, 4, v, 14);
    EncodeNext(b, 36, m.price, 4, v, 15);
    EncodeNext(b, 40, m.requestId, 8, v, 16);
    EncodeNext(b, 48, m.orderId, 8, v, 17);
    EncodeNext(b, 56, m.exchangeId, 8, v, 18);
    EncodeNext(b, 64, m.instrumentId, 8, v, 19);
    EncodeNext(b, 72, m.quantity, 4, v, 20);
    EncodeNext(b, 76, m.remaining, 4, v, 21);
    EncodeNext(b, 80, m.tradeId, 8, v, 22);
    FillZero(b[..], v, 23);
    WholeFrame(b[..], m);
    EncodeDecode(m);
  }

  lemma HeadOf(m: Message)
    ensures var v := Values(m);
      && v[0] == MAGIC && v[1] == VERSION && v[2] == KindCode(m.kind) && v[3] == ActionCode(m.action)
      && v[4] == SideCode(m.side) && v[5] == OrderTypeCode(m.orderType) && v[6] == TifCode(m.tif)
      && v[7] == ReportCode(m.report) && v[8] == RejectCode(m.reject) && v[9] == (if m.postOnly then 1 else 0)
      && v[10] == UpdateCode(m.update) && v[11] == 0
  {
    hide Values, KindCode, ActionCode, SideCode, OrderTypeCode, TifCode, ReportCode, RejectCode, UpdateCode;
    hide KINDS, ACTIONS, SIDES, ORDER_TYPES, TIFS, REPORTS, REJECTS, UPDATES;
    FirstCodes(m);
    LastCodes(m);
  }

  lemma FirstCodes(m: Message)
    ensures var v := Values(m);
      && v[0] == MAGIC && v[1] == VERSION && v[2] == KindCode(m.kind) && v[3] == ActionCode(m.action)
      && v[4] == SideCode(m.side) && v[5] == OrderTypeCode(m.orderType)
  {
    hide KindCode, ActionCode, SideCode, OrderTypeCode, TifCode, ReportCode, RejectCode, UpdateCode;
    hide KINDS, ACTIONS, SIDES, ORDER_TYPES, TIFS, REPORTS, REJECTS, UPDATES;
  }

  lemma LastCodes(m: Message)
    ensures var v := Values(m);
      && v[6] == TifCode(m.tif) && v[7] == ReportCode(m.report) && v[8] == RejectCode(m.reject)
      && v[9] == (if m.postOnly then 1 else 0) && v[10] == UpdateCode(m.update) && v[11] == 0
  {
    hide KindCode, ActionCode, SideCode, OrderTypeCode, TifCode, ReportCode, RejectCode, UpdateCode;
    hide KINDS, ACTIONS, SIDES, ORDER_TYPES, TIFS, REPORTS, REJECTS, UPDATES;
  }

  lemma FieldsOf(m: Message)
    ensures var v := Values(m);
      && v[12] == m.epoch && v[13] == m.sequence && v[14] == m.clientId && v[15] == m.price
      && v[16] == m.requestId && v[17] == m.orderId && v[18] == m.exchangeId && v[19] == m.instrumentId
      && v[20] == m.quantity && v[21] == m.remaining && v[22] == m.tradeId && v[23] == 0
  {
  }

  lemma WholeFrame(b: Bytes, m: Message)
    requires Filled(b, Values(m), |LAYOUT|)
    ensures b == Encoded(m)
  {
    FieldsFit();
    assert b[..FRAME_SIZE] == b;
  }

  /** Whether any byte of the reserved tail is set. */
  method TailSet(b: array<Byte>) returns (dirty: bool)
    requires b.Length == FRAME_SIZE
    ensures dirty <==> Word(b[..], 88, 8) != 0
  {
    assert b[..][88..96] == b[88..96];
    ZeroValue(b[88..96]);
    var i := 88;
    while i != FRAME_SIZE
      invariant 88 <= i <= FRAME_SIZE && forall j | 88 <= j < i :: b[..][j] == 0
    {
      if b[i] != 0 {
        assert b[88..96][i - 88] == b[i];
        return true;
      }
      i := i + 1;
    }
    assert forall j | 0 <= j < 8 :: b[88..96][j] == b[..][j + 88];
    return false;
  }

  lemma OneByte(b: Bytes, i: nat)
    requires i < |b|
    ensures Value(b[i..i + 1]) == b[i]
  {
    assert b[i..i + 1][..0] == [];
  }

  /** The fields of a frame in terms of its bytes. */
  lemma HeadFields(b: Bytes)
    requires |b| == FRAME_SIZE
    ensures var v := Fields(b);
      && v[0] == Word(b, 0, 4) && v[1] == b[4] && v[2] == b[5] && v[3] == b[6] && v[4] == b[7] && v[5] == b[8]
      && v[6] == b[9] && v[7] == b[10] && v[8] == b[11] && v[9] == b[12] && v[10] == b[13]
      && (v[11] == 0 <==> b[14] == 0 && b[15] == 0) && v[23] == Word(b, 88, 8)
  {
    Offsets();
    hide Offset, Value;
    OneByte(b, 4);
    OneByte(b, 5);
    OneByte(b, 6);
    OneByte(b, 7);
    OneByte(b, 8);
    OneByte(b, 9);
    OneByte(b, 10);
    OneByte(b, 11);
    OneByte(b, 12);
    OneByte(b, 13);
    var pad := b[14..16];
    ZeroValue(pad);
    assert pad[0] == b[14] && pad[1] == b[15];
  }

  lemma BodyFields(b: Bytes)
    requires |b| == FRAME_SIZE
    ensures var v := Fields(b);
      && v[12] == Word(b, 16, 8) && v[13] == Word(b, 24, 8) && v[14] == Word(b, 32, 4)
      && v[15] == Word(b, 36, 4) && v[16] == Word(b, 40, 8) && v[17] == Word(b, 48, 8)
      && v[18] == Word(b, 56, 8) && v[19] == Word(b, 64, 8) && v[20] == Word(b, 72, 4)
      && v[21] == Word(b, 76, 4) && v[22] == Word(b, 80, 8)
  {
    Offsets();
    hide Offset, Value;
  }

  predicate GoodCodes(b: Bytes)
    requires |b| == FRAME_SIZE
  {
    && b[4] == VERSION && 1 <= b[5] <= 7 && 1 <= b[6] <= 6 && b[7] <= 1 && 1 <= b[8] <= 2 && 1 <= b[9] <= 3
    && 1 <= b[10] <= 7 && b[11] <= 17 && b[12] <= 1 && 1 <= b[13] <= 5 && b[14] == 0 && b[15] == 0
  }

  lemma AcceptableBytes(b: Bytes)
    requires |b| == FRAME_SIZE
    ensures Acceptable(Fields(b)) <==> Word(b, 0, 4) == MAGIC && GoodCodes(b) && Word(b, 88, 8) == 0
  {
    HeadFields(b);
    hide Fields, Word;
  }

  /** The checks a receiver makes before it reads the fields. */
  method CheckHead(b: array<Byte>) returns (ok: bool)
    requires b.Length == FRAME_SIZE
    ensures ok <==> Acceptable(Fields(b[..]))
  {
    AcceptableBytes(b[..]);
    hide Fields, Word, Acceptable;
    var magic := Get(b, 0, 4);
    var tail := TailSet(b);
    ok := !(magic != MAGIC || b[4] != VERSION || b[5] < 1 || b[5] > 7 || b[6] < 1 || b[6] > 6 || b[7] > 1
            || b[8] < 1 || b[8] > 2 || b[9] < 1 || b[9] > 3 || b[10] < 1 || b[10] > 7 || b[11] > 17 || b[12] > 1
            || b[13] < 1 || b[13] > 5 || b[14] != 0 || b[15] != 0 || tail);
  }

  /** Reads a frame, or refuses it. */
  method Decode(b: array<Byte>) returns (r: Option<Message>)
    requires b.Length == FRAME_SIZE
    ensures r == Decoded(b[..])
  {
    var ok := CheckHead(b);
    if !ok {
      return None;
    }
    var m := ReadFields(b);
    r := Some(m);
  }

  predicate HeadRead(v: seq<nat>, m: Message)
    requires |v| == |LAYOUT| && Acceptable(v)
  {
    && m.kind == KINDS[v[2] - 1] && m.action == ACTIONS[v[3] - 1] && m.side == SIDES[v[4]]
    && m.orderType == ORDER_TYPES[v[5] - 1] && m.tif == TIFS[v[6] - 1] && m.report == REPORTS[v[7] - 1]
    && m.reject == REJECTS[v[8]] && m.update == UPDATES[v[10] - 1] && m.postOnly == (v[9] != 0)
  }

  predicate IdsRead(v: seq<nat>, m: Message)
    requires |v| == |LAYOUT|
  {
    && m.epoch == v[12] && m.sequence == v[13] && m.clientId == v[14] && m.price == v[15]
    && m.requestId == v[16] && m.orderId == v[17]
  }

  lemma Assembled(v: seq<nat>, m: Message)
    requires |v| == |LAYOUT| && Acceptable(v)
    requires HeadRead(v, m) && IdsRead(v, m) && m.exchangeId == v[18] && m.instrumentId == v[19]
    requires m.quantity == v[20] && m.remaining == v[21] && m.tradeId == v[22]
    ensures m == FromValues(v)
  {
    hide KINDS, ACTIONS, SIDES, ORDER_TYPES, TIFS, REPORTS, REJECTS, UPDATES;
  }

  /** Reads the enumerations. */
  method ReadHead(b: array<Byte>) returns (r: Message)
    requires b.Length == FRAME_SIZE && Acceptable(Fields(b[..]))
    ensures HeadRead(Fields(b[..]), r)
  {
    HeadFields(b[..]);
    assert |KINDS| == 7 && |ACTIONS| == 6 && |ORDER_TYPES| == 2 && |TIFS| == 3 && |REPORTS| == 7;
    assert |REJECTS| == 18 && |UPDATES| == 5;
    hide Fields, KINDS, ACTIONS, ORDER_TYPES, TIFS, REPORTS, REJECTS, UPDATES;
    r := BLANK;
    r := r.(kind := KINDS[b[5] - 1], action := ACTIONS[b[6] - 1], side := if b[7] == 0 then Bid else Ask);
    r := r.(orderType := ORDER_TYPES[b[8] - 1], tif := TIFS[b[9] - 1], report := REPORTS[b[10] - 1]);
    r := r.(reject := REJECTS[b[11]], postOnly := b[12] != 0, update := UPDATES[b[13] - 1]);
  }

  lemma KeepsHead(v: seq<nat>, m: Message, r: Message)
    requires |v| == |LAYOUT| && Acceptable(v) && HeadRead(v, m)
    requires r == m.(epoch := r.epoch, sequence := r.sequence, clientId := r.clientId, price := r.price,
                     requestId := r.requestId, orderId := r.orderId, exchangeId := r.exchangeId,
                     instrumentId := r.instrumentId, quantity := r.quantity, remaining := r.remaining,
                     tradeId := r.tradeId)
    ensures HeadRead(v, r)
  {
  }

  /** Reads the first numbers. */
  method ReadIds(b: array<Byte>, m: Message) returns (r: Message)
    requires b.Length == FRAME_SIZE && Acceptable(Fields(b[..])) && HeadRead(Fields(b[..]), m)
    ensures HeadRead(Fields(b[..]), r) && IdsRead(Fields(b[..]), r)
  {
    hide HeadRead, Acceptable, Word;
    BodyFields(b[..]);
    hide Fields;
    r := m;
    var epoch := Get(b, 16, 8);
    var sequence := Get(b, 24, 8);
    var clientId := Get(b, 32, 4);
    var price := Get(b, 36, 4);
    var requestId := Get(b, 40, 8);
    var orderId := Get(b, 48, 8);
    r := r.(epoch := epoch, sequence := sequence, clientId := clientId, price := price, requestId := requestId,
            orderId := orderId);
    KeepsHead(Fields(b[..]), m, r);
  }

  method ReadFields(b: array<Byte>) returns (r: Message)
    requires b.Length == FRAME_SIZE && Acceptable(Fields(b[..]))
    ensures r == FromValues(Fields(b[..]))
  {
    hide HeadRead, Acceptable, Word, FromValues;
    BodyFields(b[..]);
    hide Fields;
    r := ReadHead(b);
    r := ReadIds(b, r);
    ghost var m := r;
    var exchangeId := Get(b, 56, 8);
    var instrumentId := Get(b, 64, 8);
    var quantity := Get(b, 72, 4);
    var remaining := Get(b, 76, 4);
    var tradeId := Get(b, 80, 8);
    r := r.(exchangeId := exchangeId, instrumentId := instrumentId, quantity := quantity, remaining := remaining,
            tradeId := tradeId);
    KeepsHead(Fields(b[..]), m, r);
    Assembled(Fields(b[..]), r);
  }
}
