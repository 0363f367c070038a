/**
 The write-ahead journal as a file of bytes: a sixteen-byte header, then one hundred
 bytes per command, a frame and its FNV-1a checksum.

 The files recovery accepts are exactly the files `Append` writes (`AcceptedIffWritten`);
 two accepted files of one length never differ in a single byte (`OneByteRefused`), and
 every truncation is refused unless it falls between records (`Truncated`).
 */
module JournalFile {
  import opened Types
  import opened Codec

  const HEADER_SIZE := 16
  const RECORD_SIZE := 100
  const WORD := 0x1_0000_0000
  const FNV_OFFSET := 2166136261
  const FNV_PRIME := 16777619
  /** The inverse of the prime modulo 2^32. */
  const FNV_INVERSE := 899433627

  // ---- FNV-1a -------------------------------------------------------------

  /** Exclusive or of the low `n` bits. */
  function XorBits(x: nat, y: nat, n: nat): nat {
    if n == 0 then 0 else 2 * XorBits(x / 2, y / 2, n - 1) + (if x % 2 == y % 2 then 0 else 1)
  }

  function PowerOfTwo(n: nat): (r: nat)
    ensures r >= 1
  {
    if n == 0 then 1 else 2 * PowerOfTwo(n - 1)
  }

  lemma {:induction false} XorUndoes(x: nat, y: nat, n: nat)
    requires x < PowerOfTwo(n)
    ensures XorBits(x, y, n) < PowerOfTwo(n)
    ensures XorBits(XorBits(x, y, n), y, n) == x
    ensures XorBits(x, y, n) == XorBits(y, x, n)
  {
    if n > 0 {
      XorUndoes(x / 2, y / 2, n - 1);
      var z := XorBits(x, y, n);
      assert z / 2 == XorBits(x / 2, y / 2, n - 1);
    }
  }

  lemma Byte8()
    ensures PowerOfTwo(8) == 256
  {
    assert PowerOfTwo(4) == 16;
  }

  function XorByte(x: Byte, y: Byte): (r: Byte) {
    Byte8();
    XorUndoes(x, y, 8);
    XorBits(x, y, 8)
  }

  lemma XorByteInjective(x: Byte, y: Byte, u: Byte, v: Byte)
    requires XorByte(x, u) == XorByte(y, v)
    ensures x == y <==> u == v
  {
    Byte8();
    XorUndoes(x, u, 8);
    XorUndoes(y, v, 8);
    XorUndoes(u, x, 8);
    XorUndoes(v, y, 8);
  }

  /** `h ^ b` for a 32-bit hash: only the low byte can change. */
  function Xor(h: nat, b: Byte): (r: nat)
    requires h < WORD
    ensures r < WORD
  {
    h / 256 * 256 + XorByte(h % 256, b)
  }

  lemma XorInjective(h: nat, g: nat, b: Byte, c: Byte)
    requires h < WORD && g < WORD && Xor(h, b) == Xor(g, c)
    ensures h == g <==> b == c
  {
    hide XorByte;
    assert h / 256 == g / 256;
    XorByteInjective(h % 256, g % 256, b, c);
  }

  /** Multiplication by the prime modulo 2^32 loses nothing. */
  lemma PrimeInvertible(x: nat)
    requires x < WORD
    ensures (x * FNV_PRIME % WORD) * FNV_INVERSE % WORD == x
  {
    var k, r := x * FNV_PRIME / WORD, x * FNV_PRIME % WORD;
    var t := FNV_PRIME * FNV_INVERSE / WORD;
    assert FNV_PRIME * FNV_INVERSE == t * WORD + 1;
    assert r * FNV_INVERSE == x + WORD * (x * t - k * FNV_INVERSE);
  }

  function Mix(h: nat, b: Byte): (r: nat)
    requires h < WORD
    ensures r < WORD
  {
    Xor(h, b) * FNV_PRIME % WORD
  }

  lemma MixInjective(h: nat, g: nat, b: Byte, c: Byte)
    requires h < WORD && g < WORD && Mix(h, b) == Mix(g, c)
    ensures h == g <==> b == c
  {
    PrimeInvertible(Xor(h, b));
    PrimeInvertible(Xor(g, c));
    XorInjective(h, g, b, c);
  }

  function Fnv(s: Bytes): (r: nat)
    ensures r < WORD
  {
    if s == [] then FNV_OFFSET else Mix(Fnv(s[..|s| - 1]), s[|s| - 1])
  }

  ghost predicate DifferAt(s: Bytes, t: Bytes, i: nat) {
    && |s| == |t| && i < |s| && s[i] != t[i]
    && forall j | 0 <= j < |s| && j != i :: s[j] == t[j]
  }

  /** The checksum sees every change of one byte. */
  lemma {:induction false} FnvSeesOneByte(s: Bytes, t: Bytes, i: nat)
    requires DifferAt(s, t, i)
    ensures Fnv(s) != Fnv(t)
  {
    var n := |s| - 1;
    if Fnv(s) == Fnv(t) {
      MixInjective(Fnv(s[..n]), Fnv(t[..n]), s[n], t[n]);
    }
    if i == n {
      assert s[..n] == t[..n];
    } else {
      assert DifferAt(s[..n], t[..n], i);
      FnvSeesOneByte(s[..n], t[..n], i);
    }
  }

  method Checksum(bytes: array<Byte>) returns (hash: nat)
    ensures hash == Fnv(bytes[..])
  {
    hash := FNV_OFFSET;
    var i := 0;
    while i < bytes.Length
      invariant i <= bytes.Length && hash == Fnv(bytes[..i])
    {
      assert bytes[..i + 1][..i] == bytes[..i];
      hash := Xor(hash, bytes[i]);
      hash := hash * FNV_PRIME % WORD;
      i := i + 1;
    }
    assert bytes[..i] == bytes[..];
  }

  // ---- Files --------------------------------------------------------------

  function Header(config: nat): (r: Bytes)
    ensures |r| == HEADER_SIZE
  {
    [0x4c, 0x4a, 0x52, 0x31, 1, 0, 0, 0] + BigEndian(config, 8)
  }

  /** Only commands that can change the engine belong in the journal. */
  predicate Loggable(m: Message) {
    m.kind == Command && Durable(m)
  }

  function Record(m: Message): Bytes {
    Encoded(m) + BigEndian(Fnv(Encoded(m)), 4)
  }

  function Log(commands: seq<Message>): Bytes {
    if commands == [] then [] else Record(commands[0]) + Log(commands[1..])
  }

  datatype Recovery =
    | Recovered(commands: seq<Message>)
    | Torn
    | MissingChecksum
    | Mismatch
    | Corrupt

  /** One record of the file. */
  function ReadRecord(r: Bytes): Option<Message>
    requires |r| == RECORD_SIZE
  {
    var m := Decoded(r[..FRAME_SIZE]);
    if Value(r[FRAME_SIZE..]) == Fnv(r[..FRAME_SIZE]) && m.Some? && Loggable(m.value) then m else None
  }

  /** What reading records until the end of the file finds, after `before`. */
  function ReadLog(b: Bytes, before: seq<Message>): Recovery {
    if b == [] then Recovered(before)
    else if |b| == FRAME_SIZE then MissingChecksum
    else if |b| < RECORD_SIZE then Torn
    else
      var m := ReadRecord(b[..RECORD_SIZE]);
      if m.None? then Corrupt else ReadLog(b[RECORD_SIZE..], before + [m.value])
  }

  /** What opening a file finds. */
  function Opened(config: nat, disk: Bytes): Recovery {
    if disk == [] then Recovered([])
    else if |disk| < HEADER_SIZE then Torn
    else if disk[..HEADER_SIZE] != Header(config) then Mismatch
    else ReadLog(disk[HEADER_SIZE..], [])
  }

  ghost predicate Writable(commands: seq<Message>) {
    forall k | 0 <= k < |commands| :: WellTyped(commands[k]) && Loggable(commands[k])
  }

  // ---- Accepted files are the written files -------------------------------

  lemma RecordSize(m: Message)
    requires WellTyped(m)
    ensures |Record(m)| == RECORD_SIZE
    ensures Record(m)[..FRAME_SIZE] == Encoded(m)
    ensures Value(Record(m)[FRAME_SIZE..]) == Fnv(Encoded(m))
  {
    EncodeDecode(m);
    Widths();
    hide Encoded, Decoded, WellTyped;
    ValueOfBigEndian(Fnv(Encoded(m)), 4);
    assert Record(m)[FRAME_SIZE..] == BigEndian(Fnv(Encoded(m)), 4);
  }

  /** A record reads back as its command if it is one that belongs in the journal, and is refused otherwise. */
  lemma RecordReads(m: Message)
    requires WellTyped(m)
    ensures |Record(m)| == RECORD_SIZE
    ensures ReadRecord(Record(m)) == if Loggable(m) then Some(m) else None
  {
    RecordSize(m);
    EncodeDecode(m);
    hide Record, Encoded, Decoded, Fnv, WellTyped;
  }

  lemma RecordIsWritten(r: Bytes)
    requires |r| == RECORD_SIZE && ReadRecord(r).Some?
    ensures var m := ReadRecord(r).value; WellTyped(m) && Loggable(m) && r == Record(m)
  {
    var frame := r[..FRAME_SIZE];
    DecodeEncode(frame);
    hide Encoded, Decoded, Fnv, WellTyped;
    BigEndianOfValue(r[FRAME_SIZE..]);
    assert r == frame + r[FRAME_SIZE..];
  }

  /** A good first record is read and the rest follows. */
  lemma ReadStep(r: Bytes, rest: Bytes, before: seq<Message>)
    requires |r| == RECORD_SIZE && ReadRecord(r).Some?
    ensures ReadLog(r + rest, before) == ReadLog(rest, before + [ReadRecord(r).value])
  {
    hide ReadRecord;
    var b := r + rest;
    assert b[..RECORD_SIZE] == r && b[RECORD_SIZE..] == rest;
  }

  lemma {:induction false} LogReads(commands: seq<Message>, before: seq<Message>, tail: Bytes)
    requires Writable(commands)
    ensures ReadLog(Log(commands) + tail, before) == ReadLog(tail, before + commands)
    decreases |commands|
  {
    hide Record, WellTyped, ReadRecord, Loggable, ReadLog;
    if commands == [] {
      assert before + commands == before;
      assert Log(commands) + tail == tail;
    } else {
      var c, rest := commands[0], commands[1..];
      RecordReads(c);
      ReadStep(Record(c), Log(rest) + tail, before);
      assert Log(commands) + tail == Record(c) + (Log(rest) + tail);
      LogReads(rest, before + [c], tail);
      assert before + [c] + rest == before + commands;
    }
  }

  lemma LogPrepend(c: Message, rest: seq<Message>)
    ensures Log([c] + rest) == Record(c) + Log(rest)
    ensures Writable(rest) && WellTyped(c) && Loggable(c) ==> Writable([c] + rest)
  {
    hide WellTyped, Loggable, Record;
    assert ([c] + rest)[1..] == rest;
  }

  /** A log that reads begins with a record that was written. */
  lemma ReadFirst(b: Bytes, before: seq<Message>) returns (c: Message)
    requires b != [] && ReadLog(b, before).Recovered?
    ensures |b| >= RECORD_SIZE && WellTyped(c) && Loggable(c) && b == Record(c) + b[RECORD_SIZE..]
    ensures ReadLog(b, before) == ReadLog(b[RECORD_SIZE..], before + [c])
  {
    hide Record, WellTyped, ReadRecord, Loggable;
    RecordIsWritten(b[..RECORD_SIZE]);
    c := ReadRecord(b[..RECORD_SIZE]).value;
  }

  lemma NothingToRead(before: seq<Message>)
    ensures ReadLog([], before) == Recovered(before + []) && Log([]) == [] && Writable([])
  {
    assert before + [] == before;
  }

  lemma {:induction false} ReadIsLog(b: Bytes, before: seq<Message>) returns (commands: seq<Message>)
    requires ReadLog(b, before).Recovered?
    ensures ReadLog(b, before).commands == before + commands
    ensures Writable(commands) && b == Log(commands)
    decreases |b|
  {
    hide Record, WellTyped, Loggable, Writable, Log, ReadLog;
    if b == [] {
      commands := [];
      NothingToRead(before);
    } else {
      var c := ReadFirst(b, before);
      var others := ReadIsLog(b[RECORD_SIZE..], before + [c]);
      LogPrepend(c, others);
      commands := [c] + others;
      assert before + [c] + others == before + commands;
    }
  }

  lemma WrittenIsAccepted(config: nat, commands: seq<Message>, tail: Bytes)
    requires Writable(commands)
    ensures Opened(config, Header(config) + Log(commands) + tail) == ReadLog(tail, commands)
  {
    hide Header, Writable, Log, ReadLog;
    var disk := Header(config) + Log(commands) + tail;
    assert disk[..HEADER_SIZE] == Header(config);
    assert disk[HEADER_SIZE..] == Log(commands) + tail;
    LogReads(commands, [], tail);
    assert [] + commands == commands;
  }

  lemma AcceptedIsWritten(config: nat, disk: Bytes)
    requires disk != [] && Opened(config, disk).Recovered?
    ensures var commands := Opened(config, disk).commands;
      Writable(commands) && disk == Header(config) + Log(commands)
  {
    hide Header, Writable, Log, ReadLog;
    var commands := ReadIsLog(disk[HEADER_SIZE..], []);
    assert [] + commands == commands;
    assert disk == disk[..HEADER_SIZE] + disk[HEADER_SIZE..];
  }

  /** Recovery returns exactly the appended commands, and accepts no file that appending did not write. */
  lemma AcceptedIffWritten(config: nat, disk: Bytes, commands: seq<Message>)
    ensures Opened(config, disk) == Recovered(commands)
       <==> (disk == [] && commands == []) || (Writable(commands) && disk == Header(config) + Log(commands))
  {
    if Writable(commands) {
      WrittenIsAccepted(config, commands, []);
      assert Header(config) + Log(commands) + [] == Header(config) + Log(commands);
    }
    if disk != [] && Opened(config, disk).Recovered? {
      AcceptedIsWritten(config, disk);
    }
    hide Header, Writable, Log;
  }

  // ---- Damage -------------------------------------------------------------

  /** A single difference lies on one side of any cut. */
  lemma DifferSplit(s: Bytes, t: Bytes, i: nat, n: nat)
    requires DifferAt(s, t, i) && n <= |s|
    ensures if i < n then DifferAt(s[..n], t[..n], i) && s[n..] == t[n..]
                     else s[..n] == t[..n] && DifferAt(s[n..], t[n..], i - n)
  {
    if i >= n {
      assert s[n..][i - n] != t[n..][i - n];
    }
  }

  /** Two records that read never differ in one byte only. */
  lemma RecordsFarApart(r: Bytes, q: Bytes, i: nat)
    requires |r| == |q| == RECORD_SIZE && DifferAt(r, q, i) && ReadRecord(r).Some?
    ensures ReadRecord(q).None?
  {
    hide Decoded, Fnv, Value, Loggable;
    DifferSplit(r, q, i, FRAME_SIZE);
    if i < FRAME_SIZE {
      FnvSeesOneByte(r[..FRAME_SIZE], q[..FRAME_SIZE], i);
    } else {
      ValueInjective(r[FRAME_SIZE..], q[FRAME_SIZE..]);
    }
  }

  lemma {:induction false} LogsFarApart(b: Bytes, d: Bytes, i: nat, before: seq<Message>)
    requires DifferAt(b, d, i) && ReadLog(b, before).Recovered?
    ensures !ReadLog(d, before).Recovered?
    decreases |b|
  {
    hide ReadRecord;
    var r, q := b[..RECORD_SIZE], d[..RECORD_SIZE];
    DifferSplit(b, d, i, RECORD_SIZE);
    if i < RECORD_SIZE {
      RecordsFarApart(r, q, i);
    } else {
      var c := ReadRecord(r).value;
      hide DifferAt;
      LogsFarApart(b[RECORD_SIZE..], d[RECORD_SIZE..], i - RECORD_SIZE, before + [c]);
    }
  }

  /** A change of exactly one byte anywhere in an accepted file is refused. */
  lemma OneByteRefused(config: nat, disk: Bytes, damaged: Bytes, i: nat)
    requires Opened(config, disk).Recovered? && DifferAt(disk, damaged, i)
    ensures !Opened(config, damaged).Recovered?
  {
    hide Header, ReadLog;
    DifferSplit(disk, damaged, i, HEADER_SIZE);
    if i >= HEADER_SIZE {
      LogsFarApart(disk[HEADER_SIZE..], damaged[HEADER_SIZE..], i - HEADER_SIZE, []);
    }
  }

  /** What opening finds in the first `n` bytes of a file that held `commands`. */
  function Cut(commands: seq<Message>, n: nat): Recovery
    requires n <= HEADER_SIZE + RECORD_SIZE * |commands|
  {
    if n == 0 then Recovered([])
    else if n < HEADER_SIZE then Torn
    else
      var whole, part := (n - HEADER_SIZE) / RECORD_SIZE, (n - HEADER_SIZE) % RECORD_SIZE;
      if part == 0 then Recovered(commands[..whole])
      else if part == FRAME_SIZE then MissingChecksum
      else Torn
  }

  lemma {:induction false} LogSize(commands: seq<Message>)
    requires Writable(commands)
    ensures |Log(commands)| == RECORD_SIZE * |commands|
  {
    hide Record, ReadRecord, WellTyped, Loggable;
    if commands != [] {
      var rest := commands[1..];
      RecordReads(commands[0]);
      LogSize(rest);
      assert |commands| == 1 + |rest|;
    }
  }

  lemma {:induction false} LogConcat(a: seq<Message>, b: seq<Message>)
    ensures Log(a + b) == Log(a) + Log(b)
  {
    hide Record;
    if a == [] {
      assert a + b == b;
    } else {
      LogConcat(a[1..], b);
      assert a == [a[0]] + a[1..] && a + b == [a[0]] + (a[1..] + b);
      LogPrepend(a[0], a[1..]);
      LogPrepend(a[0], a[1..] + b);
      hide Log;
      var x, y, z := Record(a[0]), Log(a[1..]), Log(b);
      assert x + (y + z) == (x + y) + z;
    }
  }

  /** The first `n` bytes of a log are whole records and a part of the next. */
  lemma LogCut(commands: seq<Message>, whole: nat, part: nat) returns (tail: Bytes)
    requires Writable(commands) && part < RECORD_SIZE && RECORD_SIZE * whole + part <= RECORD_SIZE * |commands|
    ensures whole <= |commands| && Writable(commands[..whole])
    ensures |Log(commands)| == RECORD_SIZE * |commands|
    ensures |tail| == part && Log(commands)[..RECORD_SIZE * whole + part] == Log(commands[..whole]) + tail
  {
    var front, back := commands[..whole], commands[whole..];
    hide WellTyped, Loggable;
    assert Writable(front) && Writable(back);
    hide Log, Writable;
    assert commands == front + back;
    LogConcat(front, back);
    LogSize(commands);
    LogSize(front);
    LogSize(back);
    tail := Log(back)[..part];
  }

  lemma ShortTail(tail: Bytes, commands: seq<Message>)
    requires |tail| < RECORD_SIZE
    ensures ReadLog(tail, commands)
         == if tail == [] then Recovered(commands) else if |tail| == FRAME_SIZE then MissingChecksum else Torn
  {
  }

  lemma CutAfterHeader(config: nat, commands: seq<Message>, whole: nat, part: nat)
    requires Writable(commands) && part < RECORD_SIZE && RECORD_SIZE * whole + part <= RECORD_SIZE * |commands|
    ensures |Log(commands)| == RECORD_SIZE * |commands|
    ensures var n := HEADER_SIZE + RECORD_SIZE * whole + part;
      Opened(config, (Header(config) + Log(commands))[..n]) == Cut(commands, n)
  {
    hide Header, Log, Writable, ReadLog, Opened;
    var tail := LogCut(commands, whole, part);
    var n := HEADER_SIZE + RECORD_SIZE * whole + part;
    assert (Header(config) + Log(commands))[..n] == Header(config) + Log(commands[..whole]) + tail;
    WrittenIsAccepted(config, commands[..whole], tail);
    ShortTail(tail, commands[..whole]);
  }

  /** Every truncation is refused, unless it falls between records: then a prefix of the commands is recovered. */
  lemma Truncated(config: nat, commands: seq<Message>, n: nat)
    requires Writable(commands) && n <= HEADER_SIZE + RECORD_SIZE * |commands|
    ensures |Header(config) + Log(commands)| == HEADER_SIZE + RECORD_SIZE * |commands|
    ensures Opened(config, (Header(config) + Log(commands))[..n]) == Cut(commands, n)
  {
    hide Header, Log, Writable, ReadLog;
    LogSize(commands);
    if n >= HEADER_SIZE {
      hide Opened, Cut;
      CutAfterHeader(config, commands, (n - HEADER_SIZE) / RECORD_SIZE, (n - HEADER_SIZE) % RECORD_SIZE);
    }
  }

  // ---- The open journal ---------------------------------------------------

  datatype Chunk = Data(bytes: Bytes) | EndOfFile | Short

  /** Fills a buffer of `size` bytes from the file, unless the file ends first. */
  method ReadAll(disk: Bytes, at: nat, size: nat) returns (r: Chunk)
    requires at <= |disk| && size > 0
    ensures r.Data? <==> at + size <= |disk|
    ensures r.Data? ==> r.bytes == disk[at..at + size]
    ensures r.EndOfFile? <==> at == |disk|
  {
    if at == |disk| {
      return EndOfFile;
    }
    if at + size > |disk| {
      return Short;
    }
    return Data(disk[at..at + size]);
  }

  lemma StepReads(disk: Bytes, at: nat, before: seq<Message>, frame: Bytes, crc: Bytes)
    requires at + RECORD_SIZE <= |disk|
    requires frame == disk[at..at + FRAME_SIZE] && crc == disk[at + FRAME_SIZE..at + RECORD_SIZE]
    ensures var m := Decoded(frame);
      ReadLog(disk[at..], before)
        == if Value(crc) == Fnv(frame) && m.Some? && Loggable(m.value)
           then ReadLog(disk[at + RECORD_SIZE..], before + [m.value]) else Corrupt
  {
    hide Decoded, Fnv, Value, Loggable;
    var r := disk[at..at + RECORD_SIZE];
    assert disk[at..][..RECORD_SIZE] == r && disk[at..][RECORD_SIZE..] == disk[at + RECORD_SIZE..];
    assert r[..FRAME_SIZE] == frame && r[FRAME_SIZE..] == crc;
  }

  /** Reads one frame and its checksum. */
  method CheckRecord(frame: Bytes, crc: Bytes) returns (m: Option<Message>)
    requires |frame| == FRAME_SIZE && |crc| == 4
    ensures var d := Decoded(frame);
      m == if Value(crc) == Fnv(frame) && d.Some? && Loggable(d.value) then d else None
  {
    hide Decoded, Fnv, Value;
    var bytes := new Byte[FRAME_SIZE](i requires 0 <= i < FRAME_SIZE => frame[i]);
    assert bytes[..] == frame;
    var word := new Byte[4](i requires 0 <= i < 4 => crc[i]);
    assert word[..][0..4] == crc;
    var stored := Get(word, 0, 4);
    var hash := Checksum(bytes);
    m := Decode(bytes);
    if stored != hash || m == None || m.value.kind != Command || m.value.action == Status || m.value.action == Snapshot {
      m := None;
    }
  }

  /** A frame followed by its checksum. */
  method BuildRecord(command: Message) returns (record: array<Byte>)
    requires WellTyped(command)
    ensures fresh(record) && record[..] == Record(command)
  {
    hide Encoded, Decoded, WellTyped, Fnv, BigEndian;
    var bytes := Encode(command);
    var hash := Checksum(bytes);
    record := new Byte[FRAME_SIZE + 4](i requires 0 <= i < 100 reads bytes => if i < FRAME_SIZE then bytes[i] else 0);
    assert record[..FRAME_SIZE] == bytes[..];
    Put(record, FRAME_SIZE, hash, 4);
    assert record[..] == Record(command);
  }

  class Journal {
    var file: Bytes
    /** The recovered commands, or why the constructor refused the file. */
    var outcome: Recovery
    const config: nat

    ghost predicate Valid()
      reads this
    {
      file != [] && outcome.Recovered? && Opened(config, file).Recovered?
    }

    ghost function Commands(): seq<Message>
      requires Valid()
      reads this
    {
      Opened(config, file).commands
    }

    /** Opens a file: writes the header into an empty one, recovers the commands of any other. */
    constructor (disk: Bytes, config: nat)
      ensures this.config == config && outcome == Opened(config, disk)
      ensures file == if disk == [] then Header(config) else disk
      ensures outcome.Recovered? ==> Valid() && Commands() == outcome.commands
    {
      this.config := config;
      file := disk;
      outcome := Torn;
      new;
      hide ReadLog;
      var head := ReadAll(disk, 0, HEADER_SIZE);
      match head {
        case EndOfFile =>
          file := Header(config);
          outcome := Recovered([]);
          Empty(config);
        case Short =>
        case Data(bytes) =>
          assert disk[..HEADER_SIZE] == bytes;
          if bytes != Header(config) {
            outcome := Mismatch;
          } else {
            outcome := Recover(disk);
          }
      }
    }

    /** Reads records until the file ends. */
    static method Recover(disk: Bytes) returns (r: Recovery)
      requires |disk| >= HEADER_SIZE
      ensures r == ReadLog(disk[HEADER_SIZE..], [])
    {
      hide Decoded, Loggable, Value, Fnv, ReadLog;
      var recovered: seq<Message> := [];
      var at := HEADER_SIZE;
      while true
        invariant HEADER_SIZE <= at <= |disk|
        invariant ReadLog(disk[at..], recovered) == ReadLog(disk[HEADER_SIZE..], [])
        decreases |disk| - at
      {
        if |disk| - at < RECORD_SIZE {
          ShortTail(disk[at..], recovered);
        }
        var frame := ReadAll(disk, at, FRAME_SIZE);
        if frame.EndOfFile? {
          return Recovered(recovered);
        }
        if frame.Short? {
          return Torn;
        }
        var crc := ReadAll(disk, at + FRAME_SIZE, 4);
        if crc.EndOfFile? {
          return MissingChecksum;
        }
        if crc.Short? {
          return Torn;
        }
        StepReads(disk, at, recovered, frame.bytes, crc.bytes);
        var m := CheckRecord(frame.bytes, crc.bytes);
        if m == None {
          return Corrupt;
        }
        recovered := recovered + [m.value];
        at := at + RECORD_SIZE;
      }
    }

    /**
     Appends one command. The file then recovers to the commands it held and this one, if the command is one
     that belongs in the journal; any other message would make the whole file unreadable.
     */
    method Append(command: Message)
      requires Valid() && WellTyped(command)
      modifies this`file
      ensures file == old(file) + Record(command)
      ensures Opened(config, file) == if Loggable(command) then Recovered(old(Commands()) + [command]) else Corrupt
    {
      hide Opened, Record, WellTyped, Loggable;
      Appended(config, file, command);
      var record := BuildRecord(command);
      file := file + record[..];
    }
  }

  lemma Empty(config: nat)
    ensures Opened(config, Header(config)) == Recovered([])
  {
    WrittenIsAccepted(config, [], []);
    assert Header(config) + Log([]) + [] == Header(config);
  }

  lemma Appended(config: nat, file: Bytes, c: Message)
    requires file != [] && Opened(config, file).Recovered? && WellTyped(c)
    ensures Opened(config, file + Record(c))
         == if Loggable(c) then Recovered(Opened(config, file).commands + [c]) else Corrupt
  {
    AcceptedIsWritten(config, file);
    var commands := Opened(config, file).commands;
    RecordReads(c);
    assert Record(c)[..RECORD_SIZE] == Record(c);
    hide Header, Record, ReadRecord, Log, Writable, Opened, WellTyped, Loggable;
    WrittenIsAccepted(config, commands, Record(c));
  }
}
