/**
 Nasdaq TotalView-ITCH 5.0 messages as the decoder reads them: one message at a time, with
 the stock directory as the only memory between messages.
 */
module ItchModel {
  import opened Types
  import opened Codec
  import opened FeedModel

  const DAY_NS := 86_400_000_000_000

  // ---- Fields -------------------------------------------------------------

  function KindOf(m: Bytes): char
    requires m != []
  {
    m[0] as char
  }

  /** The fixed length of each message type. */
  function Length(kind: char): Option<nat> {
    match kind
    case 'S' => Some(12)
    case 'R' => Some(39)
    case 'H' => Some(25)
    case 'Y' => Some(20)
    case 'L' => Some(26)
    case 'V' => Some(35)
    case 'W' => Some(12)
    case 'K' => Some(28)
    case 'J' => Some(35)
    case 'h' => Some(21)
    case 'A' => Some(36)
    case 'F' => Some(40)
    case 'E' => Some(31)
    case 'C' => Some(36)
    case 'X' => Some(23)
    case 'D' => Some(19)
    case 'U' => Some(35)
    case 'P' => Some(44)
    case 'Q' => Some(40)
    case 'B' => Some(19)
    case 'I' => Some(50)
    case 'N' => Some(20)
    case 'O' => Some(48)
    case _ => None
  }

  function Locate(m: Bytes): nat
    requires |m| >= 3
  {
    Word(m, 1, 2)
  }

  function Text(m: Bytes, at: nat, size: nat): (r: string)
    requires at + size <= |m|
    ensures |r| == size
  {
    seq(size, i requires 0 <= i < size => m[at + i] as char)
  }

  /** Drops trailing blanks. */
  function Trim(s: string): (r: string)
    ensures |r| <= |s| && r == s[..|r|]
    ensures r != "" ==> r[|r| - 1] != ' '
    ensures forall i | |r| <= i < |s| :: s[i] == ' '
  {
    if s != "" && s[|s| - 1] == ' ' then Trim(s[..|s| - 1]) else s
  }

  predicate Printable(m: Bytes, at: nat, size: nat)
    requires at + size <= |m|
  {
    forall i | at <= i < at + size :: 32 <= m[i] <= 126
  }

  /** The stock symbol in an eight-byte field. */
  function Symbol(m: Bytes, at: nat): Option<string>
    requires at + 8 <= |m|
  {
    var name := Trim(Text(m, at, 8));
    if Printable(m, at, 8) && name != "" && ' ' !in name then Some(name) else None
  }

  const BLANK_EVENT := Event(Metadata, 0, "", 0, 0, Bid, 0, 0, 0, false)

  const SYSTEM_EVENTS := "OSQMEC"
  const ORDER_MESSAGES := "AFECXDUPQ"

  // ---- One message --------------------------------------------------------

  /** The order or trade event of a message whose locate stands for `symbol`. */
  function OrderEvent(symbol: string, m: Bytes): Option<Event>
    requires m != [] && Length(KindOf(m)) == Some(|m|) && KindOf(m) in ORDER_MESSAGES
  {
    var kind := KindOf(m);
    var e := BLANK_EVENT.(symbol := symbol);
    if kind == 'A' || kind == 'F' then
      if !(m[19] as char == 'B' || m[19] as char == 'S') || Symbol(m, 24) != Some(symbol) then None
      else Some(e.(kind := AddEvent, orderId := Word(m, 11, 8), side := if m[19] as char == 'B' then Bid else Ask,
                   quantity := Word(m, 20, 4), price := Word(m, 32, 4)))
    else if kind == 'U' then
      Some(e.(kind := ReplaceEvent, orderId := Word(m, 11, 8), newOrderId := Word(m, 19, 8),
              quantity := Word(m, 27, 4), price := Word(m, 31, 4)))
    else if kind == 'P' then
      if Symbol(m, 24) != Some(symbol) then None
      else Some(e.(kind := TradeEvent, quantity := Word(m, 20, 4), price := Word(m, 32, 4)))
    else if kind == 'Q' then
      if Symbol(m, 19) != Some(symbol) then None
      else Some(e.(kind := TradeEvent, quantity := Word(m, 11, 8), price := Word(m, 27, 4)))
    else if kind == 'D' then Some(e.(kind := Delete, orderId := Word(m, 11, 8)))
    else if kind == 'X' then Some(e.(kind := Reduce, orderId := Word(m, 11, 8), quantity := Word(m, 19, 4)))
    else if kind == 'E' then Some(e.(kind := ExecuteEvent, orderId := Word(m, 11, 8), quantity := Word(m, 19, 4)))
    else if m[31] as char != 'Y' && m[31] as char != 'N' then None
    else Some(e.(kind := ExecuteEvent, orderId := Word(m, 11, 8), quantity := Word(m, 19, 4), price := Word(m, 32, 4)))
  }

  datatype Decoder = Decoder(record: nat, failed: bool, complete: bool, symbols: map<nat, string>)

  const FIRST := Decoder(0, false, false, map[])

  /** The checks every message passes first. */
  predicate WellFormed(d: Decoder, m: Bytes) {
    && !d.complete && m != [] && Length(KindOf(m)) == Some(|m|)
    && (d.record == 0 ==> KindOf(m) == 'S' && m[11] as char == 'O')
    && Word(m, 5, 6) < DAY_NS
  }

  function DecodeSystem(d: Decoder, m: Bytes): Option<(Decoder, Event)>
    requires |m| == 12
  {
    var code := m[11] as char;
    if code !in SYSTEM_EVENTS then None
    else
      Some((d.(record := d.record + 1, symbols := if code == 'O' then map[] else d.symbols,
               complete := d.complete || code == 'C'),
            BLANK_EVENT.(kind := if code == 'O' then Clear else Metadata)))
  }

  function DecodeDirectory(d: Decoder, m: Bytes): Option<(Decoder, Event)>
    requires |m| == 39
  {
    var locate, name := Locate(m), Symbol(m, 11);
    if locate == 0 || name.None? || (locate in d.symbols && d.symbols[locate] != name.value) then None
    else
      Some((d.(record := d.record + 1, symbols := d.symbols[locate := name.value]),
            BLANK_EVENT.(kind := Directory, symbol := name.value)))
  }

  function DecodeOrder(d: Decoder, m: Bytes): Option<(Decoder, Event)>
    requires m != [] && Length(KindOf(m)) == Some(|m|) && KindOf(m) in ORDER_MESSAGES
  {
    if Locate(m) !in d.symbols then None
    else
      var e := OrderEvent(d.symbols[Locate(m)], m);
      if e.None? then None else Some((d.(record := d.record + 1), e.value))
  }

  /** One message of a decoder that has not failed. */
  function DecodeMessage(d: Decoder, m: Bytes): Option<(Decoder, Event)> {
    if !WellFormed(d, m) then None
    else if KindOf(m) == 'S' then DecodeSystem(d, m)
    else if KindOf(m) == 'R' then DecodeDirectory(d, m)
    else if KindOf(m) in ORDER_MESSAGES then DecodeOrder(d, m)
    else Some((d.(record := d.record + 1), BLANK_EVENT))
  }

  /** The decoder's memory after a message, and the event it returned, if it did not throw. */
  function DecodeNext(d: Decoder, m: Bytes): (Decoder, Option<Event>) {
    if d.failed then (d, None)
    else
      var r := DecodeMessage(d, m);
      if r.None? then (d.(failed := true), None) else (r.value.0, Some(r.value.1))
  }

  // ---- Replay -------------------------------------------------------------

  datatype Replay = Replay(decoder: Decoder, books: State)

  predicate Good(r: Replay) {
    !r.decoder.failed && r.books.valid
  }

  /** Decode one message and feed its event to the books. */
  function ReplayNext(filter: string, capacity: nat, venue: string, r: Replay, m: Bytes): Replay {
    var (d, e) := DecodeNext(r.decoder, m);
    if e.None? then r.(decoder := d) else Replay(d, Consume(filter, capacity, r.books, venue, e.value))
  }

  function ReplayAll(filter: string, capacity: nat, venue: string, archive: seq<Bytes>): Replay {
    if archive == [] then Replay(FIRST, START)
    else
      var n := |archive| - 1;
      ReplayNext(filter, capacity, venue, ReplayAll(filter, capacity, venue, archive[..n]), archive[n])
  }

  /** The archive replays to the end of its session. */
  predicate Replays(r: Replay) {
    Good(r) && r.decoder.complete
  }
}
