/** Filtering commutes with reconstruction. */
module FeedFilter {
  import opened BookModel
  import opened FeedModel

  /** The books of one symbol. */
  function Only(books: Shelves, symbol: string): (r: Shelves)
    ensures forall k :: k in r <==> k in books && k.symbol == symbol
    ensures forall k | k in r :: r[k] == books[k]
  {
    map k | k in books && k.symbol == symbol :: books[k]
  }

  /** The filtered reconstruction routes like the full one and holds exactly its books of the symbol. */
  predicate Filtered(full: State, part: State, symbol: string) {
    && full.valid && part.valid && part.orders == full.orders && part.books == Only(full.books, symbol)
  }

  predicate NamedOrders(st: State) {
    forall k | k in st.orders :: st.orders[k].book.symbol != ""
  }

  /** The symbol whose book an event concerns, if it concerns one. */
  function Concerns(st: State, venue: string, e: Event): string {
    var key := OrderKey(venue, e.channel, e.orderId);
    if e.kind.AddEvent? then e.symbol
    else if key in st.orders then st.orders[key].book.symbol
    else ""
  }

  /**
   One event: what the full reconstruction accepts the filtered one accepts, with the same effect on the
   symbol's books; and an event that concerns the symbol, or nobody, is accepted by both or by neither.
   */
  ghost predicate InStep(full: State, part: State, symbol: string, venue: string, e: Event, f: State, fok: bool, p: State, pok: bool) {
    && (fok ==> pok && Filtered(f, p, symbol) && NamedOrders(f))
    && (pok && Concerns(full, venue, e) in {symbol, ""} ==> fok)
    && (fok ==> p.updates - part.updates == if Concerns(full, venue, e) == symbol then f.updates - full.updates else 0)
  }

  lemma AddFiltered(capacity: nat, full: State, part: State, symbol: string, venue: string, e: Event)
    requires symbol != "" && Filtered(full, part, symbol) && NamedOrders(full) && e.kind.AddEvent?
    ensures var (f, fok) := ApplyAdd("", capacity, full, venue, e);
      var (p, pok) := ApplyAdd(symbol, capacity, part, venue, e);
      InStep(full, part, symbol, venue, e, f, fok, p, pok)
  {
    hide Add;
    var bk := BookKey(venue, e.channel, e.symbol);
    assert e.symbol == symbol ==> BookFor(part.books, bk) == BookFor(full.books, bk);
  }

  lemma ChangeFiltered(capacity: nat, full: State, part: State, symbol: string, venue: string, e: Event)
    requires symbol != "" && Filtered(full, part, symbol) && NamedOrders(full) && !e.kind.AddEvent?
    ensures var (f, fok) := ApplyChange(capacity, full, venue, e);
      var (p, pok) := ApplyChange(capacity, part, venue, e);
      InStep(full, part, symbol, venue, e, f, fok, p, pok)
  {
    var key := OrderKey(venue, e.channel, e.orderId);
    if key in full.orders {
      var was := full.orders[key];
      NamesKept(full.orders, venue, e);
      OnlyUpdate(full.books, was.book, ChangeBook(capacity, BookFor(full.books, was.book), e, was).0, symbol);
      assert Routable(full, venue, e, was) == Routable(part, venue, e, was);
    }
    hide ChangeBook, ChangeRouting, Routable, Only;
  }

  lemma NamesKept(orders: Routing, venue: string, e: Event)
    requires OrderKey(venue, e.channel, e.orderId) in orders
    requires forall k | k in orders :: orders[k].book.symbol != ""
    ensures var next := ChangeRouting(orders, venue, e, orders[OrderKey(venue, e.channel, e.orderId)]);
      forall k | k in next :: next[k].book.symbol != ""
  {
  }

  lemma OnlyUpdate(books: Shelves, k: BookKey, b: Book, symbol: string)
    ensures Only(books[k := b], symbol) == if k.symbol == symbol then Only(books, symbol)[k := b] else Only(books, symbol)
  {
  }

  lemma ClearFiltered(full: State, part: State, symbol: string, venue: string, channel: nat)
    requires Filtered(full, part, symbol) && NamedOrders(full)
    ensures Filtered(ApplyClear(full, venue, channel), ApplyClear(part, venue, channel), symbol)
    ensures NamedOrders(ApplyClear(full, venue, channel))
  {
  }

  lemma ClearCounts(st: State, venue: string, channel: nat)
    ensures ApplyClear(st, venue, channel).updates == st.updates
  {
  }

  /** Events that name no order. */
  lemma QuietFiltered(capacity: nat, full: State, part: State, symbol: string, venue: string, e: Event)
    requires symbol != "" && Filtered(full, part, symbol) && NamedOrders(full)
    requires venue == "" || e.kind.Metadata? || e.kind.Directory? || e.kind.TradeEvent? || e.kind.Clear?
    ensures var (f, fok) := Apply("", capacity, full, venue, e);
      var (p, pok) := Apply(symbol, capacity, part, venue, e);
      InStep(full, part, symbol, venue, e, f, fok, p, pok)
  {
    ClearFiltered(full, part, symbol, venue, e.channel);
    ClearCounts(full, venue, e.channel);
    ClearCounts(part, venue, e.channel);
    hide ApplyAdd, ApplyChange, ApplyClear, NamedOrders, Filtered, Concerns;
  }

  lemma ApplyFiltered(capacity: nat, full: State, part: State, symbol: string, venue: string, e: Event)
    requires symbol != "" && Filtered(full, part, symbol) && NamedOrders(full)
    ensures var (f, fok) := Apply("", capacity, full, venue, e);
      var (p, pok) := Apply(symbol, capacity, part, venue, e);
      InStep(full, part, symbol, venue, e, f, fok, p, pok)
  {
    hide InStep, ApplyAdd, ApplyChange, ApplyClear, NamedOrders, Filtered;
    if venue == "" || e.kind.Metadata? || e.kind.Directory? || e.kind.TradeEvent? || e.kind.Clear? {
      QuietFiltered(capacity, full, part, symbol, venue, e);
    } else if e.kind.AddEvent? {
      AddFiltered(capacity, full, part, symbol, venue, e);
    } else {
      ChangeFiltered(capacity, full, part, symbol, venue, e);
    }
  }

  lemma ApplyKeepsValid(filter: string, capacity: nat, st: State, venue: string, e: Event)
    ensures Apply(filter, capacity, st, venue, e).0.valid == st.valid
  {
    hide Add, ChangeBook, Routable, ChangeRouting;
  }

  /** How many core updates of the full reconstruction concern the symbol. */
  function UpdatesOf(capacity: nat, stream: Stream, symbol: string): nat {
    if stream == [] then 0
    else
      var n := |stream| - 1;
      var (before, after) := (Rebuild("", capacity, stream[..n]), Rebuild("", capacity, stream));
      UpdatesOf(capacity, stream[..n], symbol)
        + if Concerns(before, stream[n].0, stream[n].1) == symbol && after.updates > before.updates then 1 else 0
  }

  /** Updates are counted one at a time. */
  lemma CountsByOne(filter: string, capacity: nat, st: State, venue: string, e: Event)
    ensures st.updates <= Consume(filter, capacity, st, venue, e).updates <= st.updates + 1
  {
    hide Add, ChangeBook, Routable, ChangeRouting;
  }

  /**
   Filtering preserves meaning: whatever stream the unfiltered reconstruction accepts, the one filtered to a
   symbol accepts, with identical books for the symbol and exactly the updates that concern it.
   */
  lemma {:induction false} FilterCommutes(capacity: nat, stream: Stream, symbol: string)
    requires symbol != "" && Rebuild("", capacity, stream).valid
    ensures NamedOrders(Rebuild("", capacity, stream))
    ensures Filtered(Rebuild("", capacity, stream), Rebuild(symbol, capacity, stream), symbol)
    ensures Rebuild(symbol, capacity, stream).updates == UpdatesOf(capacity, stream, symbol)
    decreases |stream|
  {
    hide Apply, Filtered, NamedOrders, Concerns;
    if stream == [] {
      StartFiltered(symbol);
    } else {
      var n := |stream| - 1;
      var (venue, e) := stream[n];
      var full, part := Rebuild("", capacity, stream[..n]), Rebuild(symbol, capacity, stream[..n]);
      FilterCommutes(capacity, stream[..n], symbol);
      FilteredValid(full, part, symbol);
      CountsByOne("", capacity, full, venue, e);
      ApplyFiltered(capacity, full, part, symbol, venue, e);
    }
  }

  lemma StartFiltered(symbol: string)
    ensures Filtered(START, START, symbol) && NamedOrders(START)
  {
  }

  lemma FilteredValid(full: State, part: State, symbol: string)
    requires Filtered(full, part, symbol)
    ensures full.valid && part.valid
  {
  }

  /** A stream is good for the unfiltered reconstruction exactly when it is good for every symbol's. */
  lemma {:induction false} FilterExact(capacity: nat, stream: Stream)
    ensures Rebuild("", capacity, stream).valid <==> forall symbol | symbol != "" :: Rebuild(symbol, capacity, stream).valid
    decreases |stream|
  {
    if Rebuild("", capacity, stream).valid {
      forall symbol | symbol != "" ensures Rebuild(symbol, capacity, stream).valid {
        FilterCommutes(capacity, stream, symbol);
      }
    } else {
      var symbol := BlameOneSymbol(capacity, stream);
    }
  }

  /** If the unfiltered reconstruction fails, so does that of some symbol. */
  lemma {:induction false} BlameOneSymbol(capacity: nat, stream: Stream) returns (symbol: string)
    requires !Rebuild("", capacity, stream).valid
    ensures symbol != "" && !Rebuild(symbol, capacity, stream).valid
    decreases |stream|
  {
    hide Apply, Filtered, NamedOrders, Concerns;
    var n := |stream| - 1;
    var (venue, e) := stream[n];
    var full := Rebuild("", capacity, stream[..n]);
    if !full.valid {
      symbol := BlameOneSymbol(capacity, stream[..n]);
    } else {
      symbol := Concerns(full, venue, e);
      symbol := if symbol == "" then "?" else symbol;
      FilterCommutes(capacity, stream[..n], symbol);
      FilteredValid(full, Rebuild(symbol, capacity, stream[..n]), symbol);
      var part := Rebuild(symbol, capacity, stream[..n]);
      ApplyFiltered(capacity, full, part, symbol, venue, e);
      assert Rebuild(symbol, capacity, stream) == Consume(symbol, capacity, part, venue, e);
      ApplyKeepsValid("", capacity, full, venue, e);
    }
  }
}
