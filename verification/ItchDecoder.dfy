/** The ITCH decoder as an object. */
module ItchDecoder {
  import opened Types
  import opened Codec
  import opened FeedModel
  import opened ItchModel

  /** A big-endian number of at most eight bytes. */
  method Integer(b: Bytes, at: nat, size: nat) returns (value: nat)
    requires at + size <= |b| && size <= 8
    ensures value == Word(b, at, size)
  {
    value := 0;
    var i := 0;
    while i != size
      invariant i <= size && value == Word(b, at, i)
    {
      ShiftIn(b, at, i);
      value := value * 256 % 0x1_0000_0000_0000_0000 + b[at + i];
      i := i + 1;
    }
  }

  /** Reads an eight-byte symbol field, or refuses it. */
  method ReadSymbol(m: Bytes, at: nat) returns (r: Option<string>)
    requires at + 8 <= |m|
    ensures r == Symbol(m, at)
  {
    var result := "";
    for i := 0 to 8
      invariant result == Text(m, at, 8)[..i]
      invariant forall k | at <= k < at + i :: 32 <= m[k] <= 126
    {
      if m[at + i] < 32 || m[at + i] > 126 {
        return None;
      }
      result := result + [m[at + i] as char];
    }
    assert result == Text(m, at, 8);
    while result != "" && result[|result| - 1] == ' '
      invariant Trim(result) == Trim(Text(m, at, 8))
      decreases |result|
    {
      result := result[..|result| - 1];
    }
    if result == "" || result[0] == ' ' || ' ' in result {
      return None;
    }
    return Some(result);
  }

  /** An order or trade message under a known stock. */
  method ReadOrder(symbol: string, m: Bytes) returns (r: Option<Event>)
    requires m != [] && Length(KindOf(m)) == Some(|m|) && KindOf(m) in ORDER_MESSAGES
    ensures r == OrderEvent(symbol, m)
  {
    hide Word, Symbol;
    var kind := KindOf(m);
    var e := BLANK_EVENT.(symbol := symbol);
    if kind == 'P' || kind == 'Q' {
      var at := if kind == 'Q' then 19 else 24;
      var name := ReadSymbol(m, at);
      if name != Some(symbol) {
        return None;
      }
      var quantity := Integer(m, if kind == 'Q' then 11 else 20, if kind == 'Q' then 8 else 4);
      var price := Integer(m, if kind == 'Q' then 27 else 32, 4);
      return Some(e.(kind := TradeEvent, quantity := quantity, price := price));
    }
    var orderId := Integer(m, 11, 8);
    e := e.(orderId := orderId);
    if kind == 'A' || kind == 'F' {
      if m[19] as char != 'B' && m[19] as char != 'S' {
        return None;
      }
      var quantity := Integer(m, 20, 4);
      var name := ReadSymbol(m, 24);
      if name != Some(symbol) {
        return None;
      }
      var price := Integer(m, 32, 4);
      return Some(e.(kind := AddEvent, side := if m[19] as char == 'B' then Bid else Ask, quantity := quantity,
                     price := price));
    }
    if kind == 'U' {
      var newOrderId := Integer(m, 19, 8);
      var quantity := Integer(m, 27, 4);
      var price := Integer(m, 31, 4);
      return Some(e.(kind := ReplaceEvent, newOrderId := newOrderId, quantity := quantity, price := price));
    }
    if kind == 'D' {
      return Some(e.(kind := Delete));
    }
    var quantity := Integer(m, 19, 4);
    e := e.(kind := if kind == 'X' then Reduce else ExecuteEvent, quantity := quantity);
    if kind == 'C' {
      if m[31] as char != 'Y' && m[31] as char != 'N' {
        return None;
      }
      var price := Integer(m, 32, 4);
      e := e.(price := price);
    }
    return Some(e);
  }

  class Itch50Decoder {
    var record: nat
    var failed: bool
    var complete: bool
    var symbols: map<nat, string>

    function State(): Decoder
      reads this
    {
      Decoder(record, failed, complete, symbols)
    }

    constructor ()
      ensures State() == FIRST
    {
      record, failed, complete, symbols := 0, false, false, map[];
    }

    /** One message; `None` stands for the exception, after which the decoder refuses everything. */
    method Decode(m: Bytes) returns (r: Option<Event>)
      modifies this
      ensures (State(), r) == DecodeNext(old(State()), m)
    {
      hide Word, Symbol, OrderEvent, Length;
      if failed {
        return None;
      }
      r := DecodeBody(m);
      if r.None? {
        failed := true;
      } else {
        record := record + 1;
      }
    }

    /** The body of the decoder's try block, up to the record counter. */
    method DecodeBody(m: Bytes) returns (r: Option<Event>)
      requires !failed
      modifies this`complete, this`symbols
      ensures r.None? <==> DecodeMessage(old(State()), m).None?
      ensures r.None? ==> State() == old(State())
      ensures r.Some? ==> Some((State().(record := record + 1), r.value)) == DecodeMessage(old(State()), m)
    {
      hide Word, Symbol, OrderEvent, Length;
      if complete || m == [] || Length(KindOf(m)) != Some(|m|) {
        return None;
      }
      assert |m| >= 12 by { LongEnough(m); }
      var kind := KindOf(m);
      if record == 0 && !(kind == 'S' && m[11] as char == 'O') {
        return None;
      }
      var timestamp := Integer(m, 5, 6);
      if timestamp >= DAY_NS {
        return None;
      }
      var locate := Integer(m, 1, 2);
      if kind == 'S' {
        SystemLength(m);
        if m[11] as char !in SYSTEM_EVENTS {
          return None;
        }
        var e := BLANK_EVENT;
        if m[11] as char == 'O' {
          e := e.(kind := Clear);
          symbols := map[];
        }
        if m[11] as char == 'C' {
          complete := true;
        }
        return Some(e);
      } else if kind == 'R' {
        DirectoryLength(m);
        if locate == 0 {
          return None;
        }
        var name := ReadSymbol(m, 11);
        if name.None? || (locate in symbols && symbols[locate] != name.value) {
          return None;
        }
        symbols := symbols[locate := name.value];
        return Some(BLANK_EVENT.(kind := Directory, symbol := name.value));
      } else if kind in ORDER_MESSAGES {
        if locate !in symbols {
          return None;
        }
        r := ReadOrder(symbols[locate], m);
      } else {
        return Some(BLANK_EVENT);
      }
    }
  }

  lemma LongEnough(m: Bytes)
    requires m != [] && Length(KindOf(m)) == Some(|m|)
    ensures |m| >= 12
  {
  }

  lemma SystemLength(m: Bytes)
    requires m != [] && Length(KindOf(m)) == Some(|m|) && KindOf(m) == 'S'
    ensures |m| == 12
  {
  }

  lemma DirectoryLength(m: Bytes)
    requires m != [] && Length(KindOf(m)) == Some(|m|) && KindOf(m) == 'R'
    ensures |m| == 39
  {
  }
}
