/**
 Extraction of one symbol's records from an ITCH archive: if the full archive replays for
 the symbol and extraction succeeds, the sample replays to the same books.
 */
module Extraction {
  import opened Types
  import opened BookModel
  import opened Codec
  import opened FeedModel
  import opened ItchModel

  // ---- The selection loop -------------------------------------------------

  datatype Progress = Progress(records: nat, ended: bool, selected: nat, kept: seq<Bytes>)

  const NOTHING_READ := Progress(0, false, 0, [])

  /** A system event must be one of the session's own, and only the first may open it. */
  predicate SystemOk(x: Progress, m: Bytes)
    requires |m| >= 11
  {
    Locate(m) == 0 && |m| == 12 && m[11] as char in SYSTEM_EVENTS && (x.records != 0 ==> m[11] as char != 'O')
  }

  /** The stock locate of the symbol after a directory message, unless it would change. */
  function Directed(symbol: string, x: Progress, m: Bytes): Option<nat>
    requires |m| >= 11
  {
    if |m| != 39 || Locate(m) == 0 then None
    else if Trim(Text(m, 11, 8)) == symbol then
      if x.selected != 0 && x.selected != Locate(m) then None else Some(Locate(m))
    else if x.selected == Locate(m) then None
    else Some(x.selected)
  }

  /** One record: refused, or kept, or skipped. */
  function SelectNext(symbol: string, x: Progress, m: Bytes): Option<Progress> {
    if x.ended || |m| < 11 then None
    else
      var kind := KindOf(m);
      if x.records == 0 && !(kind == 'S' && |m| == 12 && m[11] as char == 'O') then None
      else if kind == 'S' && !SystemOk(x, m) then None
      else
        var selected := if kind == 'R' then Directed(symbol, x, m) else Some(x.selected);
        if selected.None? then None
        else
          var keep := Locate(m) == 0 || (selected.value != 0 && Locate(m) == selected.value);
          Some(Progress(x.records + 1, kind == 'S' && m[11] as char == 'C', selected.value,
                        if keep then x.kept + [m] else x.kept))
  }

  function SelectAll(symbol: string, archive: seq<Bytes>): Option<Progress> {
    if archive == [] then Some(NOTHING_READ)
    else
      var n := |archive| - 1;
      var x := SelectAll(symbol, archive[..n]);
      if x.None? then None else SelectNext(symbol, x.value, archive[n])
  }

  /** An ITCH symbol: one to eight printable characters, none of them blank. */
  predicate ValidSymbol(symbol: string) {
    1 <= |symbol| <= 8 && forall i | 0 <= i < |symbol| :: 33 as char <= symbol[i] <= 126 as char
  }

  /** The extracted sample, if extraction succeeds. */
  function Extracted(symbol: string, archive: seq<Bytes>): Option<seq<Bytes>> {
    var x := SelectAll(symbol, archive);
    if !ValidSymbol(symbol) || x.None? || !x.value.ended || x.value.selected == 0 then None else Some(x.value.kept)
  }

  method Extract(symbol: string, archive: seq<Bytes>) returns (sample: Option<seq<Bytes>>)
    ensures sample == Extracted(symbol, archive)
  {
    if !ValidSymbol(symbol) {
      return None;
    }
    var records: nat, ended, selected: nat, kept: seq<Bytes> := 0, false, 0, [];
    while records < |archive|
      invariant records <= |archive|
      invariant SelectAll(symbol, archive[..records]) == Some(Progress(records, ended, selected, kept))
    {
      var message := archive[records];
      ghost var x := Progress(records, ended, selected, kept);
      assert archive[..records + 1][..records] == archive[..records];
      assert SelectAll(symbol, archive[..records + 1]) == SelectNext(symbol, x, message);
      if SelectNext(symbol, x, message).None? {
        RefusedForGood(symbol, archive, records + 1);
      }
      if ended || |message| < 11 {
        return None;
      }
      var kind, locate := KindOf(message), message[1] as nat * 256 + message[2] as nat;
      LocateBytes(message);
      if records == 0 && (kind != 'S' || |message| != 12 || message[11] as char != 'O') {
        return None;
      }
      if kind == 'S' {
        if locate != 0 || |message| != 12 || message[11] as char !in SYSTEM_EVENTS
           || (records != 0 && message[11] as char == 'O')
        {
          return None;
        }
        ended := message[11] as char == 'C';
      }
      if kind == 'R' {
        if |message| != 39 || locate == 0 {
          return None;
        }
        var name := Trim(Text(message, 11, 8));
        if name == symbol {
          if selected != 0 && selected != locate {
            return None;
          }
          selected := locate;
        } else if selected == locate {
          return None;
        }
      }
      records := records + 1;
      if locate == 0 || (selected != 0 && locate == selected) {
        kept := kept + [message];
      }
    }
    assert archive[..records] == archive;
    if !ended || selected == 0 {
      return None;
    }
    return Some(kept);
  }

  lemma LocateBytes(m: Bytes)
    requires |m| >= 3
    ensures Locate(m) == m[1] as nat * 256 + m[2] as nat
  {
    var s := m[1..3];
    assert s[..1] == [m[1]] && s[..1][..0] == [];
    assert Value(s[..1]) == m[1];
  }

  /** Once refused, an archive stays refused. */
  lemma {:induction false} RefusedForGood(symbol: string, archive: seq<Bytes>, n: nat)
    requires n <= |archive| && SelectAll(symbol, archive[..n]).None?
    ensures SelectAll(symbol, archive).None?
    decreases |archive| - n
  {
    if n == |archive| {
      assert archive[..n] == archive;
    } else {
      assert archive[..n + 1][..n] == archive[..n];
      RefusedForGood(symbol, archive, n + 1);
    }
  }

  // ---- The books of the sample --------------------------------------------

  function OnlyOrders(orders: Routing, symbol: string): (r: Routing)
    ensures forall k :: k in r <==> k in orders && orders[k].book.symbol == symbol
    ensures forall k | k in r :: r[k] == orders[k]
  {
    map k | k in orders && orders[k].book.symbol == symbol :: orders[k]
  }

  /** The sample's books are the full ones; its routing is what concerns the symbol. */
  predicate SameBooks(symbol: string, full: State, part: State) {
    && full.valid && part.valid && part.books == full.books && part.updates == full.updates
    && part.orders == OnlyOrders(full.orders, symbol)
    && (forall k | k in full.books :: k.symbol == symbol)
  }

  predicate NamesNoOrder(e: Event) {
    e.kind.Metadata? || e.kind.Directory? || e.kind.TradeEvent? || e.kind.Clear?
  }

  lemma OwnAdd(symbol: string, capacity: nat, venue: string, full: State, part: State, e: Event)
    requires SameBooks(symbol, full, part) && e.symbol == symbol && ApplyAdd(symbol, capacity, full, venue, e).1
    ensures var p := ApplyAdd(symbol, capacity, part, venue, e);
      p.1 && SameBooks(symbol, ApplyAdd(symbol, capacity, full, venue, e).0, p.0)
  {
    hide Add;
  }

  lemma OwnChange(symbol: string, capacity: nat, venue: string, full: State, part: State, e: Event)
    requires SameBooks(symbol, full, part) && symbol != "" && e.symbol == symbol && ApplyChange(capacity, full, venue, e).1
    ensures var p := ApplyChange(capacity, part, venue, e);
      p.1 && SameBooks(symbol, ApplyChange(capacity, full, venue, e).0, p.0)
  {
    var key := OrderKey(venue, e.channel, e.orderId);
    var was := full.orders[key];
    RoutingOfOwn(symbol, full.orders, venue, e);
    assert Routable(full, venue, e, was) ==> Routable(part, venue, e, was);
    hide ChangeBook, ChangeRouting, Routable, OnlyOrders;
    assert key in OnlyOrders(full.orders, symbol);
  }

  lemma RoutingOfOwn(symbol: string, orders: Routing, venue: string, e: Event)
    requires OrderKey(venue, e.channel, e.orderId) in orders
    requires orders[OrderKey(venue, e.channel, e.orderId)].book.symbol == symbol
    ensures var was := orders[OrderKey(venue, e.channel, e.orderId)];
      OnlyOrders(ChangeRouting(orders, venue, e, was), symbol) == ChangeRouting(OnlyOrders(orders, symbol), venue, e, was)
  {
  }

  lemma OwnEvent(symbol: string, capacity: nat, venue: string, full: State, part: State, e: Event)
    requires SameBooks(symbol, full, part) && symbol != "" && (NamesNoOrder(e) || e.symbol == symbol)
    requires Apply(symbol, capacity, full, venue, e).1
    ensures var p := Apply(symbol, capacity, part, venue, e);
      p.1 && SameBooks(symbol, Apply(symbol, capacity, full, venue, e).0, p.0)
  {
    ClearSame(symbol, full, part, venue, e.channel);
    hide SameBooks, ApplyAdd, ApplyChange, ApplyClear;
    if !NamesNoOrder(e) {
      if e.kind.AddEvent? {
        OwnAdd(symbol, capacity, venue, full, part, e);
      } else {
        OwnChange(symbol, capacity, venue, full, part, e);
      }
    }
  }

  lemma ClearSame(symbol: string, full: State, part: State, venue: string, channel: nat)
    requires SameBooks(symbol, full, part)
    ensures SameBooks(symbol, ApplyClear(full, venue, channel), ApplyClear(part, venue, channel))
  {
  }

  /** An event of another symbol leaves the symbol's books and orders alone. */
  lemma OtherEvent(symbol: string, capacity: nat, venue: string, full: State, part: State, e: Event)
    requires SameBooks(symbol, full, part) && symbol != "" && !e.kind.Clear?
    requires NamesNoOrder(e) || (e.symbol != symbol && e.symbol != "")
    requires Apply(symbol, capacity, full, venue, e).1
    ensures SameBooks(symbol, Apply(symbol, capacity, full, venue, e).0, part)
  {
    var key := OrderKey(venue, e.channel, e.orderId);
    if !NamesNoOrder(e) && !e.kind.AddEvent? {
      RoutingOfOther(symbol, full, venue, e);
      hide ChangeBook, ChangeRouting, Routable, OnlyOrders;
    }
  }

  lemma RoutingOfOther(symbol: string, st: State, venue: string, e: Event)
    ensures var key := OrderKey(venue, e.channel, e.orderId);
      key in st.orders && st.orders[key].book.symbol != symbol && Routable(st, venue, e, st.orders[key]) ==>
        OnlyOrders(ChangeRouting(st.orders, venue, e, st.orders[key]), symbol) == OnlyOrders(st.orders, symbol)
  {
  }

  // ---- The decoder of the sample ------------------------------------------

  /** Both decoders are at the same point of the session; the sample's knows the one stock. */
  predicate SameSession(symbol: string, d: Decoder, x: Progress, q: Decoder) {
    && !d.failed && !q.failed && d.complete == q.complete == x.ended
    && d.record == x.records && (d.record == 0 <==> q.record == 0)
    && 0 !in d.symbols
    && (forall l | l in d.symbols :: d.symbols[l] != "" && (d.symbols[l] == symbol <==> l == x.selected))
    && (x.selected != 0 ==> x.selected in d.symbols) && (x.records == 0 ==> x.selected == 0)
    && q.symbols == if x.selected == 0 then map[] else map[x.selected := symbol]
  }

  predicate Kept(x: Progress, m: Bytes)
    requires |m| >= 3
  {
    Locate(m) == 0 || (x.selected != 0 && Locate(m) == x.selected)
  }

  /** What one record does to the two decoders. */
  ghost predicate DecodesAlike(symbol: string, q: Decoder, m: Bytes, d': Decoder, e: Event, x': Progress)
    requires |m| >= 3
  {
    if Kept(x', m) then
      && var r := DecodeMessage(q, m);
      r.Some? && r.value.1 == e && SameSession(symbol, d', x', r.value.0) && (NamesNoOrder(e) || e.symbol == symbol)
    else
      && SameSession(symbol, d', x', q) && !e.kind.Clear?
      && (NamesNoOrder(e) || (e.symbol != symbol && e.symbol != ""))
  }

  lemma SystemAlike(symbol: string, d: Decoder, x: Progress, q: Decoder, m: Bytes)
    requires SameSession(symbol, d, x, q) && DecodeMessage(d, m).Some? && SelectNext(symbol, x, m).Some?
    requires KindOf(m) == 'S' && symbol != ""
    ensures var (d', e) := DecodeMessage(d, m).value;
      DecodesAlike(symbol, q, m, d', e, SelectNext(symbol, x, m).value)
  {
    hide Word, Symbol;
    assert Kept(SelectNext(symbol, x, m).value, m);
  }

  lemma DirectoryAlike(symbol: string, d: Decoder, x: Progress, q: Decoder, m: Bytes)
    requires SameSession(symbol, d, x, q) && DecodeMessage(d, m).Some? && SelectNext(symbol, x, m).Some?
    requires KindOf(m) == 'R' && symbol != ""
    ensures var (d', e) := DecodeMessage(d, m).value;
      DecodesAlike(symbol, q, m, d', e, SelectNext(symbol, x, m).value)
  {
    hide Word, Trim, Text, Printable;
    assert Symbol(m, 11) == Some(Trim(Text(m, 11, 8)));
  }

  lemma OrderEventNames(symbol: string, m: Bytes)
    requires m != [] && Length(KindOf(m)) == Some(|m|) && KindOf(m) in ORDER_MESSAGES
    ensures OrderEvent(symbol, m).Some? ==>
      OrderEvent(symbol, m).value.symbol == symbol && !OrderEvent(symbol, m).value.kind.Clear?
  {
    hide Word, Symbol;
  }

  lemma OrderAlike(symbol: string, d: Decoder, x: Progress, q: Decoder, m: Bytes)
    requires SameSession(symbol, d, x, q) && DecodeMessage(d, m).Some? && SelectNext(symbol, x, m).Some?
    requires KindOf(m) in ORDER_MESSAGES && KindOf(m) != 'S' && KindOf(m) != 'R' && symbol != ""
    ensures var (d', e) := DecodeMessage(d, m).value;
      DecodesAlike(symbol, q, m, d', e, SelectNext(symbol, x, m).value)
  {
    OrderEventNames(d.symbols[Locate(m)], m);
    hide Word, OrderEvent, Length;
  }

  lemma OtherAlike(symbol: string, d: Decoder, x: Progress, q: Decoder, m: Bytes)
    requires SameSession(symbol, d, x, q) && DecodeMessage(d, m).Some? && SelectNext(symbol, x, m).Some?
    requires KindOf(m) !in ORDER_MESSAGES && KindOf(m) != 'S' && KindOf(m) != 'R'
    ensures var (d', e) := DecodeMessage(d, m).value;
      DecodesAlike(symbol, q, m, d', e, SelectNext(symbol, x, m).value)
  {
    hide Word, Length;
  }

  lemma DecodeStep(symbol: string, d: Decoder, x: Progress, q: Decoder, m: Bytes)
    requires SameSession(symbol, d, x, q) && DecodeMessage(d, m).Some? && SelectNext(symbol, x, m).Some? && symbol != ""
    ensures |m| >= 11
    ensures var (d', e) := DecodeMessage(d, m).value;
      DecodesAlike(symbol, q, m, d', e, SelectNext(symbol, x, m).value)
  {
    hide DecodesAlike, SameSession;
    if KindOf(m) == 'S' {
      SystemAlike(symbol, d, x, q, m);
    } else if KindOf(m) == 'R' {
      DirectoryAlike(symbol, d, x, q, m);
    } else if KindOf(m) in ORDER_MESSAGES {
      OrderAlike(symbol, d, x, q, m);
    } else {
      OtherAlike(symbol, d, x, q, m);
    }
  }

  // ---- The theorem --------------------------------------------------------

  predicate SameReplay(symbol: string, full: Replay, x: Progress, part: Replay) {
    SameSession(symbol, full.decoder, x, part.decoder) && SameBooks(symbol, full.books, part.books)
  }

  /** One record of the archive, kept or skipped. */
  lemma RecordStep(symbol: string, capacity: nat, venue: string, full: Replay, x: Progress, part: Replay, m: Bytes)
    requires symbol != "" && SameReplay(symbol, full, x, part) && SelectNext(symbol, x, m).Some?
    requires Good(ReplayNext(symbol, capacity, venue, full, m))
    ensures |m| >= 11
    ensures var x' := SelectNext(symbol, x, m).value;
      var next := if Kept(x', m) then ReplayNext(symbol, capacity, venue, part, m) else part;
      && SameReplay(symbol, ReplayNext(symbol, capacity, venue, full, m), x', next)
      && x'.kept == if Kept(x', m) then x.kept + [m] else x.kept
  {
    var x' := SelectNext(symbol, x, m).value;
    NotFailed(symbol, full, x, part);
    assert DecodeMessage(full.decoder, m).Some? by { hide DecodeMessage; }
    var (d', e) := DecodeMessage(full.decoder, m).value;
    DecodeStep(symbol, full.decoder, x, part.decoder, m);
    assert x'.kept == if Kept(x', m) then x.kept + [m] else x.kept;
    hide DecodeMessage, SameSession, SameBooks, Apply, SelectNext;
    if Kept(x', m) {
      OwnEvent(symbol, capacity, venue, full.books, part.books, e);
    } else {
      OtherEvent(symbol, capacity, venue, full.books, part.books, e);
    }
  }

  lemma NotFailed(symbol: string, full: Replay, x: Progress, part: Replay)
    requires SameReplay(symbol, full, x, part)
    ensures Good(full) && Good(part) && full.decoder.complete == part.decoder.complete == x.ended
  {
  }

  lemma GoodBefore(filter: string, capacity: nat, venue: string, r: Replay, m: Bytes)
    requires Good(ReplayNext(filter, capacity, venue, r, m))
    ensures Good(r)
  {
    hide DecodeMessage, Apply;
  }

  lemma ReplayMore(filter: string, capacity: nat, venue: string, archive: seq<Bytes>, m: Bytes)
    ensures ReplayAll(filter, capacity, venue, archive + [m])
         == ReplayNext(filter, capacity, venue, ReplayAll(filter, capacity, venue, archive), m)
  {
    hide ReplayNext;
    assert (archive + [m])[..|archive|] == archive;
  }

  lemma {:induction false} PrefixAlike(symbol: string, capacity: nat, venue: string, archive: seq<Bytes>)
    requires symbol != "" && Good(ReplayAll(symbol, capacity, venue, archive)) && SelectAll(symbol, archive).Some?
    ensures var x := SelectAll(symbol, archive).value;
      SameReplay(symbol, ReplayAll(symbol, capacity, venue, archive), x, ReplayAll(symbol, capacity, venue, x.kept))
    decreases |archive|
  {
    hide SameBooks, ReplayNext, SelectNext, Good;
    if archive == [] {
      NothingAlike(symbol, capacity, venue);
    } else {
      var n := |archive| - 1;
      var full, m := ReplayAll(symbol, capacity, venue, archive[..n]), archive[n];
      GoodBefore(symbol, capacity, venue, full, m);
      PrefixAlike(symbol, capacity, venue, archive[..n]);
      var x := SelectAll(symbol, archive[..n]).value;
      RecordStep(symbol, capacity, venue, full, x, ReplayAll(symbol, capacity, venue, x.kept), m);
      ReplayMore(symbol, capacity, venue, x.kept, m);
      hide SameSession, ReplayAll, Kept;
    }
  }

  lemma NothingAlike(symbol: string, capacity: nat, venue: string)
    ensures SameReplay(symbol, Replay(FIRST, START), NOTHING_READ, ReplayAll(symbol, capacity, venue, []))
  {
  }

  /**
   The sample means what the archive means: if the full archive replays to its end for the symbol and extraction
   succeeds, the sample replays to its end with the same books and the same number of updates.
   */
  lemma SampleReplays(symbol: string, capacity: nat, venue: string, archive: seq<Bytes>)
    requires Replays(ReplayAll(symbol, capacity, venue, archive)) && Extracted(symbol, archive).Some?
    ensures var full := ReplayAll(symbol, capacity, venue, archive);
      var sample := ReplayAll(symbol, capacity, venue, Extracted(symbol, archive).value);
      && Replays(sample) && sample.books.books == full.books.books && sample.books.updates == full.books.updates
      && sample.books.orders == OnlyOrders(full.books.orders, symbol)
  {
    hide ReplayAll, SelectAll;
    PrefixAlike(symbol, capacity, venue, archive);
  }
}
