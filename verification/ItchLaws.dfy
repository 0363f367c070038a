/**
 What ITCH messages mean, byte by byte: which are accepted at which point of a session, the
 event each of them becomes, and which records of an archive belong to one symbol.
 */
module ItchLaws {
  import opened Types
  import opened Codec
  import opened FeedModel
  import opened ItchModel
  import opened Extraction

  // ---- Numbers and names in a message -------------------------------------

  function Two(m: Bytes, at: nat): nat
    requires at + 2 <= |m|
  {
    m[at] as nat * 0x100 + m[at + 1] as nat
  }

  function Four(m: Bytes, at: nat): nat
    requires at + 4 <= |m|
  {
    Two(m, at) * 0x1_0000 + Two(m, at + 2)
  }

  function Six(m: Bytes, at: nat): nat
    requires at + 6 <= |m|
  {
    Two(m, at) * 0x1_0000_0000 + Four(m, at + 2)
  }

  function Eight(m: Bytes, at: nat): nat
    requires at + 8 <= |m|
  {
    Four(m, at) * 0x1_0000_0000 + Four(m, at + 4)
  }

  lemma WordMore(m: Bytes, at: nat, n: nat)
    requires at + n + 2 <= |m|
    ensures Word(m, at, n + 2) == Word(m, at, n) * 0x1_0000 + Two(m, at + n)
  {
    var s, t := m[at..at + n + 2], m[at..at + n + 1];
    assert s[..|s| - 1] == t && t[..|t| - 1] == m[at..at + n];
    assert Value(s) == Value(t) * 256 + m[at + n + 1] as nat;
    assert Value(t) == Value(m[at..at + n]) * 256 + m[at + n] as nat;
  }

  lemma Words(m: Bytes, at: nat)
    ensures at + 2 <= |m| ==> Word(m, at, 2) == Two(m, at)
    ensures at + 4 <= |m| ==> Word(m, at, 4) == Four(m, at)
    ensures at + 6 <= |m| ==> Word(m, at, 6) == Six(m, at)
    ensures at + 8 <= |m| ==> Word(m, at, 8) == Eight(m, at)
  {
    if at + 2 <= |m| {
      assert m[at..at] == [];
      WordMore(m, at, 0);
    }
    if at + 4 <= |m| {
      WordMore(m, at, 2);
    }
    if at + 6 <= |m| {
      WordMore(m, at, 4);
    }
    if at + 8 <= |m| {
      WordMore(m, at, 6);
    }
  }

  /** Eight bytes hold a name of visible characters, blanks behind it. */
  predicate Spells(field: Bytes, name: string)
    requires |field| == 8
  {
    && 1 <= |name| <= 8
    && (forall i | 0 <= i < |name| :: 33 <= field[i] <= 126 && name[i] == field[i] as char)
    && (forall i | |name| <= i < 8 :: field[i] == 32)
  }

  predicate Named(m: Bytes, at: nat, name: string)
    requires at + 8 <= |m|
  {
    Spells(m[at..at + 8], name)
  }

  lemma {:induction false} TrimLaw(s: string, name: string)
    requires |name| <= |s| && s[..|name|] == name && (forall i | |name| <= i < |s| :: s[i] == ' ')
    requires name != "" && name[|name| - 1] != ' '
    ensures Trim(s) == name
  {
    if |name| < |s| {
      assert s[..|s| - 1][..|name|] == name;
      TrimLaw(s[..|s| - 1], name);
    } else {
      assert s == name;
    }
  }

  lemma SpeltTrims(field: Bytes, text: string, name: string)
    requires |field| == |text| == 8 && (forall i | 0 <= i < 8 :: text[i] == field[i] as char) && Spells(field, name)
    ensures Trim(text) == name && name != "" && ' ' !in name && forall i | 0 <= i < 8 :: 32 <= field[i] <= 126
  {
    forall i | 0 <= i < 8 ensures 32 <= field[i] <= 126 {
      assert i < |name| || field[i] == 32;
    }
    assert text[..|name|] == name;
    forall i | |name| <= i < 8 ensures text[i] == ' ' {
      assert field[i] == 32;
    }
    TrimLaw(text, name);
  }

  lemma TrimmedSpells(field: Bytes, text: string, name: string)
    requires |field| == |text| == 8 && (forall i | 0 <= i < 8 :: text[i] == field[i] as char && 32 <= field[i] <= 126)
    requires Trim(text) == name && name != "" && ' ' !in name
    ensures Spells(field, name)
  {
    assert name == text[..|name|];
    forall i | 0 <= i < |name| ensures 33 <= field[i] <= 126 && name[i] == field[i] as char {
      assert name[i] == text[i] && name[i] in name;
    }
    forall i | |name| <= i < 8 ensures field[i] == 32 {
      assert text[i] == ' ';
    }
  }

  /** The symbol that the decoder reads is the name in the field, and there is none if the field holds no name. */
  lemma SymbolLaw(m: Bytes, at: nat, name: string)
    requires at + 8 <= |m|
    ensures Symbol(m, at) == Some(name) <==> Named(m, at, name)
  {
    hide Trim, Spells;
    var text, field := Text(m, at, 8), m[at..at + 8];
    assert forall i | 0 <= i < 8 :: text[i] == field[i] as char;
    assert Printable(m, at, 8) <==> forall i | 0 <= i < 8 :: 32 <= field[i] <= 126 by {
      if forall i | 0 <= i < 8 :: 32 <= field[i] <= 126 {
        forall i | at <= i < at + 8 ensures 32 <= m[i] <= 126 {
          assert field[i - at] == m[i];
        }
      }
    }
    if Spells(field, name) {
      SpeltTrims(field, text, name);
    }
    if Symbol(m, at) == Some(name) {
      TrimmedSpells(field, text, name);
    }
  }

  // ---- The lengths --------------------------------------------------------

  predicate Sized(kind: char, n: nat) {
    || (kind in {'S', 'W'} && n == 12) || (kind in {'D', 'B'} && n == 19) || (kind in {'Y', 'N'} && n == 20)
    || (kind == 'h' && n == 21) || (kind == 'X' && n == 23) || (kind == 'H' && n == 25) || (kind == 'L' && n == 26)
    || (kind == 'K' && n == 28) || (kind == 'E' && n == 31) || (kind in {'V', 'J', 'U'} && n == 35)
    || (kind in {'A', 'C'} && n == 36) || (kind == 'R' && n == 39) || (kind in {'F', 'Q'} && n == 40)
    || (kind == 'P' && n == 44) || (kind == 'O' && n == 48) || (kind == 'I' && n == 50)
  }

  lemma LengthLaw(kind: char, n: nat)
    ensures Length(kind) == Some(n) <==> Sized(kind, n)
  {
  }

  // ---- One message --------------------------------------------------------

  predicate SystemEvent(m: Bytes, code: char) {
    |m| == 12 && m[0] as char == 'S' && m[11] as char == code
  }

  /** What every message must be at its point of the session. */
  predicate InPlace(d: Decoder, m: Bytes) {
    && !d.complete && |m| >= 11 && Sized(m[0] as char, |m|)
    && (d.record == 0 ==> SystemEvent(m, 'O'))
    && Six(m, 5) < 86_400_000_000_000
  }

  /** A message about orders or trades, and the event it becomes. */
  ghost predicate Tells(symbol: string, m: Bytes, e: Event)
    requires |m| >= 11 && Sized(m[0] as char, |m|)
  {
    var kind := m[0] as char;
    || (kind in {'A', 'F'} && Named(m, 24, symbol)
        && exists side ::
             && m[19] as char == (if side == Bid then 'B' else 'S')
             && e == Event(AddEvent, 0, symbol, Eight(m, 11), 0, side, Four(m, 32), Four(m, 20), 0, false))
    || (kind == 'U'
        && e == Event(ReplaceEvent, 0, symbol, Eight(m, 11), Eight(m, 19), Bid, Four(m, 31), Four(m, 27), 0, false))
    || (kind == 'P' && Named(m, 24, symbol)
        && e == Event(TradeEvent, 0, symbol, 0, 0, Bid, Four(m, 32), Four(m, 20), 0, false))
    || (kind == 'Q' && Named(m, 19, symbol)
        && e == Event(TradeEvent, 0, symbol, 0, 0, Bid, Four(m, 27), Eight(m, 11), 0, false))
    || (kind == 'D' && e == Event(Delete, 0, symbol, Eight(m, 11), 0, Bid, 0, 0, 0, false))
    || (kind == 'X' && e == Event(Reduce, 0, symbol, Eight(m, 11), 0, Bid, 0, Four(m, 19), 0, false))
    || (kind == 'E' && e == Event(ExecuteEvent, 0, symbol, Eight(m, 11), 0, Bid, 0, Four(m, 19), 0, false))
    || (kind == 'C' && m[31] as char in {'Y', 'N'}
        && e == Event(ExecuteEvent, 0, symbol, Eight(m, 11), 0, Bid, Four(m, 32), Four(m, 19), 0, false))
  }

  lemma AddLaw(symbol: string, m: Bytes, e: Event)
    requires |m| >= 11 && Length(KindOf(m)) == Some(|m|) && KindOf(m) in {'A', 'F'} && Sized(m[0] as char, |m|)
    ensures OrderEvent(symbol, m) == Some(e) <==> Tells(symbol, m, e)
  {
    hide Word, Symbol, Named, Two, Four, Six, Eight;
    Words(m, 11);
    Words(m, 20);
    Words(m, 32);
    SymbolLaw(m, 24, symbol);
    var side := if m[19] as char == 'B' then Bid else Ask;
    assert m[19] as char in {'B', 'S'} ==> m[19] as char == if side == Bid then 'B' else 'S';
  }

  lemma TradeLaw(symbol: string, m: Bytes, e: Event)
    requires |m| >= 11 && Length(KindOf(m)) == Some(|m|) && KindOf(m) in {'P', 'Q'} && Sized(m[0] as char, |m|)
    ensures OrderEvent(symbol, m) == Some(e) <==> Tells(symbol, m, e)
  {
    hide Word, Symbol, Named, Two, Four, Six, Eight;
    Words(m, 11);
    Words(m, 20);
    Words(m, 27);
    Words(m, 32);
    SymbolLaw(m, 19, symbol);
    SymbolLaw(m, 24, symbol);
  }

  lemma FollowUpLaw(symbol: string, m: Bytes, e: Event)
    requires |m| >= 11 && Length(KindOf(m)) == Some(|m|) && KindOf(m) in {'E', 'C', 'X', 'D', 'U'}
    requires Sized(m[0] as char, |m|)
    ensures OrderEvent(symbol, m) == Some(e) <==> Tells(symbol, m, e)
  {
    hide Word, Symbol, Named, Two, Four, Six, Eight;
    Words(m, 11);
    Words(m, 19);
    Words(m, 27);
    Words(m, 31);
    Words(m, 32);
  }

  /** The event of a message about orders or trades has the values of its fields, and there is none otherwise. */
  lemma OrderLaw(symbol: string, m: Bytes, e: Event)
    requires |m| >= 11 && Length(KindOf(m)) == Some(|m|) && KindOf(m) in ORDER_MESSAGES && Sized(m[0] as char, |m|)
    ensures OrderEvent(symbol, m) == Some(e) <==> Tells(symbol, m, e)
  {
    hide OrderEvent, Tells, Sized, Length;
    if KindOf(m) in {'A', 'F'} {
      AddLaw(symbol, m, e);
    } else if KindOf(m) in {'P', 'Q'} {
      TradeLaw(symbol, m, e);
    } else {
      FollowUpLaw(symbol, m, e);
    }
  }

  // ---- One step of the session --------------------------------------------

  const CODES: set<char> := {'O', 'S', 'Q', 'M', 'E', 'C'}
  const ABOUT_ORDERS: set<char> := {'A', 'F', 'E', 'C', 'X', 'D', 'U', 'P', 'Q'}

  ghost predicate HasEvent(symbol: string, m: Bytes)
    requires |m| >= 11 && Sized(m[0] as char, |m|)
  {
    exists e :: Tells(symbol, m, e)
  }

  /** A directory message: its stock is not known under another name. */
  ghost predicate Introduces(d: Decoder, m: Bytes, name: string)
    requires |m| == 39
  {
    Named(m, 11, name) && (Two(m, 1) in d.symbols ==> d.symbols[Two(m, 1)] == name)
  }

  /** The message is accepted at this point. */
  ghost predicate Welcome(d: Decoder, m: Bytes) {
    && InPlace(d, m)
    && var kind := m[0] as char;
       && (kind == 'S' ==> m[11] as char in CODES)
       && (kind == 'R' ==> Two(m, 1) != 0 && exists name :: Introduces(d, m, name))
       && (kind in ABOUT_ORDERS ==> Two(m, 1) in d.symbols && HasEvent(d.symbols[Two(m, 1)], m))
  }

  /** An event that concerns no order. */
  function Plain(kind: EventType, symbol: string): Event {
    Event(kind, 0, symbol, 0, 0, Bid, 0, 0, 0, false)
  }

  /** The memory and the event after an accepted message. */
  ghost predicate Becomes(d: Decoder, m: Bytes, d': Decoder, e: Event)
    requires InPlace(d, m)
  {
    var kind := m[0] as char;
    && d'.record == d.record + 1 && !d'.failed && (d'.complete <==> SystemEvent(m, 'C'))
    && if kind == 'S' then
         && e == Plain(if SystemEvent(m, 'O') then Clear else Metadata, "")
         && d'.symbols == (if SystemEvent(m, 'O') then map[] else d.symbols)
       else if kind == 'R' then
         exists name :: Introduces(d, m, name) && e == Plain(Directory, name) && d'.symbols == d.symbols[Two(m, 1) := name]
       else if kind in ABOUT_ORDERS then
         d'.symbols == d.symbols && Two(m, 1) in d.symbols && Tells(d.symbols[Two(m, 1)], m, e)
       else d'.symbols == d.symbols && e == Plain(Metadata, "")
  }

  lemma KindsAreListed()
    ensures forall c: char :: c in ORDER_MESSAGES <==> c in ABOUT_ORDERS
    ensures forall c: char :: c in SYSTEM_EVENTS <==> c in CODES
  {
  }

  /** The first checks, on the bytes. */
  lemma InPlaceLaw(d: Decoder, m: Bytes)
    ensures ItchModel.WellFormed(d, m) <==> InPlace(d, m)
  {
    hide Word, Two, Four, Six, Eight;
    if m != [] {
      LengthLaw(m[0] as char, |m|);
    }
    Words(m, 5);
    hide Length;
  }

  lemma SystemLaw(d: Decoder, m: Bytes)
    requires InPlace(d, m) && m[0] as char == 'S' && !d.failed
    ensures var r := DecodeSystem(d, m);
      (r.Some? <==> Welcome(d, m)) && (r.Some? ==> Becomes(d, m, r.value.0, r.value.1))
  {
    hide Two, Six, HasEvent, Introduces;
    KindsAreListed();
    hide SYSTEM_EVENTS;
  }

  lemma DirectoryLaw(d: Decoder, m: Bytes)
    requires InPlace(d, m) && m[0] as char == 'R' && !d.failed
    ensures var r := DecodeDirectory(d, m);
      (r.Some? <==> Welcome(d, m)) && (r.Some? ==> Becomes(d, m, r.value.0, r.value.1))
  {
    hide Two, Six, HasEvent, Symbol, Word, Named;
    Words(m, 1);
    var name := Symbol(m, 11);
    if name.Some? {
      SymbolLaw(m, 11, name.value);
    }
    forall other | Introduces(d, m, other) ensures name == Some(other) {
      SymbolLaw(m, 11, other);
    }
    if name.Some? && (Locate(m) in d.symbols ==> d.symbols[Locate(m)] == name.value) {
      assert Introduces(d, m, name.value);
    }
  }

  lemma AboutOrdersLaw(d: Decoder, m: Bytes)
    requires InPlace(d, m) && m[0] as char in ORDER_MESSAGES && Length(m[0] as char) == Some(|m|) && !d.failed
    ensures var r := DecodeOrder(d, m);
      (r.Some? <==> Welcome(d, m)) && (r.Some? ==> Becomes(d, m, r.value.0, r.value.1))
  {
    hide Two, Six, Word, Tells, OrderEvent, Length;
    KindsAreListed();
    Words(m, 1);
    if Locate(m) in d.symbols {
      var symbol := d.symbols[Locate(m)];
      forall e: Event ensures OrderEvent(symbol, m) == Some(e) <==> Tells(symbol, m, e) {
        OrderLaw(symbol, m, e);
      }
      assert HasEvent(symbol, m) <==> OrderEvent(symbol, m).Some? by {
        if OrderEvent(symbol, m).Some? {
          assert Tells(symbol, m, OrderEvent(symbol, m).value);
        }
      }
    }
    hide ORDER_MESSAGES;
  }

  /** Every message at every point of a session: exactly when it is accepted, what it becomes, and what is remembered. */
  lemma MessageLaw(d: Decoder, m: Bytes)
    requires !d.failed
    ensures var (d', e) := DecodeNext(d, m);
      && (e.Some? <==> Welcome(d, m))
      && (if Welcome(d, m) then Becomes(d, m, d', e.value) else d' == d.(failed := true))
  {
    InPlaceLaw(d, m);
    KindsAreListed();
    hide ItchModel.WellFormed, InPlace, DecodeSystem, DecodeDirectory, DecodeOrder;
    if InPlace(d, m) {
      InPlaceParts(d, m);
      if KindOf(m) == 'S' {
        SystemLaw(d, m);
      } else if KindOf(m) == 'R' {
        DirectoryLaw(d, m);
      } else if KindOf(m) in ORDER_MESSAGES {
        AboutOrdersLaw(d, m);
      } else {
        OtherLaw(d, m);
      }
    }
    hide Becomes;
  }

  lemma InPlaceParts(d: Decoder, m: Bytes)
    requires InPlace(d, m)
    ensures |m| >= 11 && Length(m[0] as char) == Some(|m|)
  {
    LengthLaw(m[0] as char, |m|);
  }

  lemma OtherLaw(d: Decoder, m: Bytes)
    requires InPlace(d, m) && !d.failed && m[0] as char != 'S' && m[0] as char != 'R' && m[0] as char !in ABOUT_ORDERS
    ensures Welcome(d, m) && Becomes(d, m, d.(record := d.record + 1), BLANK_EVENT)
  {
    hide Six, Two, HasEvent, Introduces;
  }

  /** The archive so far opens with the start of messages, and the end of messages can only be its last one. */
  ghost predicate InSession(d: Decoder, archive: seq<Bytes>) {
    && (archive != [] ==> SystemEvent(archive[0], 'O'))
    && (d.complete <==> archive != [] && SystemEvent(archive[|archive| - 1], 'C'))
    && (forall k | 0 <= k < |archive| - 1 :: !SystemEvent(archive[k], 'C'))
    && (d.record == 0 <==> archive == [])
  }

  lemma SessionStep(d: Decoder, before: seq<Bytes>, m: Bytes, d': Decoder, e: Event)
    requires InSession(d, before) && Welcome(d, m) && Becomes(d, m, d', e)
    ensures InSession(d', before + [m])
  {
    hide HasEvent, Introduces, Tells, SystemEvent, Two, Six, Sized;
  }

  lemma GoodDecodes(filter: string, capacity: nat, venue: string, r: Replay, m: Bytes)
    requires Good(ReplayNext(filter, capacity, venue, r, m))
    ensures Good(r) && Welcome(r.decoder, m)
    ensures exists e :: Becomes(r.decoder, m, ReplayNext(filter, capacity, venue, r, m).decoder, e)
  {
    GoodBefore(filter, capacity, venue, r, m);
    hide DecodeNext, FeedModel.Consume;
    MessageLaw(r.decoder, m);
    hide Welcome, Becomes, InPlace;
  }

  /** An archive that replays opens with the start of messages, and is complete exactly when it ends with the end of messages. */
  lemma {:induction false} SessionLaw(filter: string, capacity: nat, venue: string, archive: seq<Bytes>)
    requires Good(ReplayAll(filter, capacity, venue, archive))
    ensures InSession(ReplayAll(filter, capacity, venue, archive).decoder, archive)
  {
    hide ReplayNext, Good, InPlace, Becomes;
    if archive == [] {
      NoSession(filter, capacity, venue);
    } else {
      hide InSession;
      var n := |archive| - 1;
      var before := ReplayAll(filter, capacity, venue, archive[..n]);
      GoodDecodes(filter, capacity, venue, before, archive[n]);
      SessionLaw(filter, capacity, venue, archive[..n]);
      var d' := ReplayNext(filter, capacity, venue, before, archive[n]).decoder;
      var e :| Becomes(before.decoder, archive[n], d', e);
      SessionStep(before.decoder, archive[..n], archive[n], d', e);
      assert archive == archive[..n] + [archive[n]];
    }
  }

  lemma NoSession(filter: string, capacity: nat, venue: string)
    ensures InSession(ReplayAll(filter, capacity, venue, []).decoder, [])
  {
  }

  // ---- The records of one symbol ------------------------------------------

  /** A directory message of the symbol. */
  predicate Own(symbol: string, m: Bytes) {
    |m| == 39 && m[0] as char == 'R' && Named(m, 11, symbol)
  }

  /** Up to record `k`, its locate has been given to the symbol. */
  predicate Given(symbol: string, archive: seq<Bytes>, k: nat)
    requires k < |archive| && |archive[k]| >= 11
  {
    exists j :: 0 <= j <= k && Own(symbol, archive[j]) && Two(archive[j], 1) == Two(archive[k], 1)
  }

  /** The records that concern every stock, and those of the symbol, in their order. */
  function Sample(symbol: string, archive: seq<Bytes>): seq<Bytes>
    requires forall m | m in archive :: |m| >= 11
  {
    if archive == [] then []
    else
      var n := |archive| - 1;
      assert archive[n] in archive && forall m | m in archive[..n] :: m in archive;
      Sample(symbol, archive[..n])
      + if Two(archive[n], 1) == 0 || Given(symbol, archive, n) then [archive[n]] else []
  }

  /** The locate found so far is that of every directory message of the symbol, or zero before the first. */
  ghost predicate Located(symbol: string, archive: seq<Bytes>, selected: nat) {
    && (selected == 0 ==> forall j | 0 <= j < |archive| :: !Own(symbol, archive[j]))
    && (selected != 0 ==> exists j :: 0 <= j < |archive| && Own(symbol, archive[j]))
    && (forall j | 0 <= j < |archive| && Own(symbol, archive[j]) :: Two(archive[j], 1) == selected)
  }

  ghost predicate Selection(symbol: string, archive: seq<Bytes>, x: Progress) {
    && x.records == |archive| && (forall m | m in archive :: |m| >= 11)
    && Located(symbol, archive, x.selected)
    && x.kept == Sample(symbol, archive)
    && (archive != [] ==> SystemEvent(archive[0], 'O'))
    && (x.ended <==> archive != [] && SystemEvent(archive[|archive| - 1], 'C'))
    && (forall k | 0 <= k < |archive| - 1 :: !SystemEvent(archive[k], 'C'))
  }

  lemma OwnIsDirected(symbol: string, m: Bytes)
    requires ValidSymbol(symbol) && |m| == 39
    ensures Trim(Text(m, 11, 8)) == symbol <==> Named(m, 11, symbol)
  {
    hide Trim;
    var text, field := Text(m, 11, 8), m[11..19];
    assert forall i | 0 <= i < 8 :: text[i] == field[i] as char;
    if Trim(text) == symbol {
      assert text[..|symbol|] == symbol;
      forall i | 0 <= i < |symbol| ensures 33 <= field[i] <= 126 && symbol[i] == field[i] as char {
        assert symbol[i] == text[i];
      }
      forall i | |symbol| <= i < 8 ensures field[i] == 32 {
        assert text[i] == ' ';
      }
    }
    if Named(m, 11, symbol) {
      SpeltTrims(field, text, symbol);
    }
  }

  lemma LocatedStep(symbol: string, archive: seq<Bytes>, m: Bytes, selected: nat, next: nat)
    requires Located(symbol, archive, selected)
    requires if Own(symbol, m) then (selected == 0 || selected == next) && next != 0 && Two(m, 1) == next else next == selected
    ensures Located(symbol, archive + [m], next)
  {
    var more := archive + [m];
    assert more[|archive|] == m && forall j | 0 <= j < |archive| :: more[j] == archive[j];
    hide Own;
    if selected != 0 {
      var j :| 0 <= j < |archive| && Own(symbol, archive[j]);
      assert Own(symbol, more[j]);
    }
    if Own(symbol, m) {
      assert Own(symbol, more[|archive|]);
    }
  }

  lemma SampleStep(symbol: string, archive: seq<Bytes>, m: Bytes, next: nat)
    requires (forall r | r in archive :: |r| >= 11) && |m| >= 11
    requires Located(symbol, archive + [m], next)
    ensures forall r | r in archive + [m] :: |r| >= 11
    ensures Sample(symbol, archive + [m])
         == Sample(symbol, archive) + if Two(m, 1) == 0 || (next != 0 && Two(m, 1) == next) then [m] else []
  {
    var more, n := archive + [m], |archive|;
    assert more[..n] == archive && more[n] == m;
    hide Own, Two;
    if next != 0 {
      var j :| 0 <= j < |more| && Own(symbol, more[j]);
      assert Two(m, 1) == next ==> Given(symbol, more, n);
    }
    assert Given(symbol, more, n) ==> next != 0 && Two(m, 1) == next;
  }

  /** The record may come next. */
  ghost predicate Admitted(symbol: string, archive: seq<Bytes>, m: Bytes) {
    && (archive != [] ==> !SystemEvent(archive[|archive| - 1], 'C')) && |m| >= 11
    && (archive == [] ==> SystemEvent(m, 'O'))
    && (m[0] as char == 'S' ==>
          |m| == 12 && Two(m, 1) == 0 && m[11] as char in CODES && (archive != [] ==> !SystemEvent(m, 'O')))
    && (m[0] as char == 'R' ==>
          |m| == 39 && Two(m, 1) != 0
          && forall j | 0 <= j < |archive| && Own(symbol, archive[j]) :: (Own(symbol, m) <==> Two(archive[j], 1) == Two(m, 1)))
  }

  lemma DirectedLaw(symbol: string, archive: seq<Bytes>, x: Progress, m: Bytes)
    requires ValidSymbol(symbol) && Located(symbol, archive, x.selected) && |m| == 39 && m[0] as char == 'R'
    ensures Directed(symbol, x, m).Some?
       <==> Two(m, 1) != 0
            && forall j | 0 <= j < |archive| && Own(symbol, archive[j]) :: (Own(symbol, m) <==> Two(archive[j], 1) == Two(m, 1))
  {
    hide Trim, Text, Named, Word, Two;
    Words(m, 1);
    OwnIsDirected(symbol, m);
    if x.selected != 0 {
      var j :| 0 <= j < |archive| && Own(symbol, archive[j]);
      assert Two(archive[j], 1) == x.selected;
    }
  }

  lemma AdmittedLaw(symbol: string, archive: seq<Bytes>, x: Progress, m: Bytes)
    requires ValidSymbol(symbol) && Selection(symbol, archive, x)
    ensures SelectNext(symbol, x, m).Some? <==> Admitted(symbol, archive, m)
  {
    KindsAreListed();
    hide Located, Sample, Named, Word, Two, Directed, SYSTEM_EVENTS, Own;
    Words(m, 1);
    if |m| == 39 && m[0] as char == 'R' {
      DirectedLaw(symbol, archive, x, m);
    } else {
      NotDirected(symbol, x, m);
    }
  }

  lemma NotDirected(symbol: string, x: Progress, m: Bytes)
    ensures |m| >= 11 && |m| != 39 ==> Directed(symbol, x, m).None?
  {
  }

  lemma SelectStep(symbol: string, archive: seq<Bytes>, x: Progress, m: Bytes)
    requires ValidSymbol(symbol) && Selection(symbol, archive, x) && SelectNext(symbol, x, m).Some?
    ensures Selection(symbol, archive + [m], SelectNext(symbol, x, m).value)
  {
    hide Located, Sample, Trim, Text, Named, Word, Two;
    var y := SelectNext(symbol, x, m).value;
    Words(m, 1);
    if |m| == 39 {
      OwnIsDirected(symbol, m);
    }
    LocatedStep(symbol, archive, m, x.selected, y.selected);
    SampleStep(symbol, archive, m, y.selected);
  }

  ghost predicate AllAdmitted(symbol: string, archive: seq<Bytes>) {
    forall n | 0 <= n < |archive| :: Admitted(symbol, archive[..n], archive[n])
  }

  lemma AllAdmittedStep(symbol: string, archive: seq<Bytes>)
    requires archive != []
    ensures var n := |archive| - 1;
      AllAdmitted(symbol, archive) <==> AllAdmitted(symbol, archive[..n]) && Admitted(symbol, archive[..n], archive[n])
  {
    hide Admitted;
    var n := |archive| - 1;
    assert forall k | 0 <= k < n :: archive[..n][..k] == archive[..k] && archive[..n][k] == archive[k];
  }

  /** The selection goes through exactly when every record may come where it does, and keeps exactly the symbol's records. */
  lemma {:induction false} SelectionLaw(symbol: string, archive: seq<Bytes>)
    requires ValidSymbol(symbol)
    ensures SelectAll(symbol, archive).Some? <==> AllAdmitted(symbol, archive)
    ensures SelectAll(symbol, archive).Some? ==> Selection(symbol, archive, SelectAll(symbol, archive).value)
  {
    hide SelectNext, Selection, Admitted;
    if archive == [] {
      NothingSelected(symbol);
    } else {
      var n := |archive| - 1;
      SelectionLaw(symbol, archive[..n]);
      AllAdmittedStep(symbol, archive);
      hide AllAdmitted;
      var x := SelectAll(symbol, archive[..n]);
      if x.Some? {
        AdmittedLaw(symbol, archive[..n], x.value, archive[n]);
        if SelectNext(symbol, x.value, archive[n]).Some? {
          SelectStep(symbol, archive[..n], x.value, archive[n]);
        }
      }
      assert archive == archive[..n] + [archive[n]];
    }
  }

  lemma NothingSelected(symbol: string)
    ensures Selection(symbol, [], NOTHING_READ)
  {
  }

  /** A symbol of one to eight visible characters. */
  predicate Legible(symbol: string) {
    1 <= |symbol| <= 8 && forall i | 0 <= i < |symbol| :: '!' <= symbol[i] <= '~'
  }

  /**
   Extraction succeeds exactly for a legible symbol, an archive whose every record may come where it does and whose last
   is the end of messages, and a directory message of the symbol; then it is exactly the symbol's records.
   */
  lemma ExtractedLaw(symbol: string, archive: seq<Bytes>)
    ensures Extracted(symbol, archive).Some?
       <==> Legible(symbol) && AllAdmitted(symbol, archive)
            && archive != [] && SystemEvent(archive[|archive| - 1], 'C')
            && exists j :: 0 <= j < |archive| && Own(symbol, archive[j])
    ensures Extracted(symbol, archive).Some? ==>
      (forall m | m in archive :: |m| >= 11) && Extracted(symbol, archive).value == Sample(symbol, archive)
  {
    hide SelectAll, Sample, Own, AllAdmitted, SystemEvent;
    if ValidSymbol(symbol) {
      SelectionLaw(symbol, archive);
    }
  }
}
