/** The virtual-trade ledger's consumer: the tables it keeps, the transaction that applies
    one event, and the at-least-once stream it reads from.

    The tables are maps keyed by their primary keys.  The reference meaning of a log is to
    apply it once, in order (`Replay`); the main results are about every schedule of
    deliveries, failures, rollbacks, lost acks and redeliveries instead. */
module VirtualLedger {
  import opened Wrappers
  import opened SessionClock

  /** Symbols by their alphabetical rank. */
  type Symbol = nat

  /** Derived identifiers are injective in their parts (`uuid5` of a joined key). */
  datatype Id =
    | PositionId(alpha: string, symbol: Symbol, candle: int)
    | OpenId(position: Id)
    | CloseId(position: Id, candle: int)
    | OtherId(text: string)

  datatype Side = Long | Short
  datatype Kind = VirtualOpen | VirtualClose
  datatype Exchange = Binance | Tcbs | OtherExchange(name: string)

  /** Timestamps are parsed only when a position is closed. */
  datatype Timestamp = At(ticks: int) | Unreadable(text: string)

  datatype Event = Event(
    eventId: Id, kind: Kind, positionId: Id, alphaId: string, symbol: Symbol, side: Side,
    price: real, qty: real, timestamp: Timestamp, candle: int, exchange: Exchange, reason: string, metadata: string)

  datatype VPosition = VPosition(
    positionId: Id, alphaId: string, signalId: Id, symbol: Symbol, side: Side,
    entryPrice: real, qty: real, openedAt: Timestamp, metadata: string, exchange: Exchange)

  datatype VTrade = VTrade(
    tradeId: Id, alphaId: string, signalId: Id, symbol: Symbol, side: Side, entryPrice: real, exitPrice: real,
    qty: real, pnl: real, pnlPercent: real, reason: string, durationHours: real,
    openedAt: Timestamp, closedAt: Timestamp, openMetadata: string, closeCandle: int, exchange: Exchange)

  datatype Tables = Tables(positions: map<Id, VPosition>, trades: map<Id, VTrade>, events: map<Id, Event>)

  datatype Error =
    | NotAnObject | WrongMode | MissingField | UnsupportedType | UnsupportedSide | NotANumber | NotPositive
    | PositionNotFound | TradeExists | BadTimestamp | DatabaseFault

  // --------------------------------------------------------------- message validation

  datatype Number = Num(value: real) | Garbage

  /** A stream message, before any check. */
  datatype Raw =
    | NotObject
    | Raw(mode: Option<string>, kind: Option<string>, eventId: Option<Id>, positionId: Option<Id>,
          alphaId: Option<string>, symbol: Option<Symbol>, side: Option<string>, price: Option<Number>,
          qty: Option<Number>, timestamp: Option<Timestamp>, candle: int, exchange: Option<Exchange>,
          reason: Option<string>, metadata: string)

  predicate Complete(m: Raw)
    requires m.Raw?
  {
    && m.kind.Some? && m.eventId.Some? && m.positionId.Some? && m.alphaId.Some? && m.symbol.Some?
    && m.side.Some? && m.price.Some? && m.qty.Some? && m.timestamp.Some?
  }

  /** The checks of `process_virtual_trade_message`, in its order. */
  function Validate(m: Raw): Result<Event, Error> {
    if m.NotObject? then Err(NotAnObject)
    else if m.mode != Some("virtual") then Err(WrongMode)
    else if !Complete(m) then Err(MissingField)
    else if m.kind.value !in {"VIRTUAL_OPEN", "VIRTUAL_CLOSE"} then Err(UnsupportedType)
    else if m.side.value !in {"LONG", "SHORT"} then Err(UnsupportedSide)
    else if m.price.value.Garbage? then Err(NotANumber)
    else if m.price.value.value <= 0.0 then Err(NotPositive)
    else if m.qty.value.Garbage? then Err(NotANumber)
    else if m.qty.value.value <= 0.0 then Err(NotPositive)
    else Ok(Event(
      m.eventId.value, if m.kind.value == "VIRTUAL_OPEN" then VirtualOpen else VirtualClose, m.positionId.value,
      m.alphaId.value, m.symbol.value, if m.side.value == "LONG" then Long else Short, m.price.value.value,
      m.qty.value.value, m.timestamp.value, m.candle, if m.exchange.Some? then m.exchange.value else Binance,
      if m.reason.Some? then m.reason.value else "VIRTUAL_REBALANCE", m.metadata))
  }

  /** The message a publisher sends for an event. */
  function Message(e: Event): Raw {
    Raw(Some("virtual"), Some(if e.kind.VirtualOpen? then "VIRTUAL_OPEN" else "VIRTUAL_CLOSE"), Some(e.eventId),
        Some(e.positionId), Some(e.alphaId), Some(e.symbol), Some(if e.side.Long? then "LONG" else "SHORT"),
        Some(Num(e.price)), Some(Num(e.qty)), Some(e.timestamp), e.candle, Some(e.exchange), Some(e.reason), e.metadata)
  }

  /** Sending and validating is lossless, exactly for positive prices and quantities. */
  lemma MessageRoundTrip(e: Event)
    ensures Validate(Message(e)) == Ok(e) <==> e.price > 0.0 && e.qty > 0.0
    ensures Validate(Message(e)).Err? ==> Validate(Message(e)).error == NotPositive
  {
  }

  // -------------------------------------------------------------- applying one event

  function OpenedPosition(e: Event): VPosition {
    VPosition(e.positionId, e.alphaId, e.eventId, e.symbol, e.side, e.price, e.qty, e.timestamp, e.metadata, e.exchange)
  }

  function Direction(side: Side): real { if side.Long? then 1.0 else -1.0 }

  function ClosedTrade(p: VPosition, e: Event): VTrade
    requires p.openedAt.At? && e.timestamp.At?
  {
    var pnl := (e.price - p.entryPrice) * p.qty * Direction(p.side);
    var capital := p.entryPrice * p.qty;
    VTrade(p.positionId, e.alphaId, e.eventId, p.symbol, p.side, p.entryPrice, e.price, p.qty, pnl,
           if capital != 0.0 then pnl / capital * 100.0 else 0.0, e.reason,
           DurationHours(p.openedAt.ticks, e.timestamp.ticks, p.exchange.Tcbs?),
           p.openedAt, e.timestamp, p.metadata, e.candle, p.exchange)
  }

  /** A virtual trade's return is the price move from its OPEN to its CLOSE, whatever its size. */
  lemma VirtualReturnIsPriceMove(open: Event, close: Event)
    requires open.price > 0.0 && open.qty > 0.0 && open.timestamp.At? && close.timestamp.At?
    ensures var trade := ClosedTrade(OpenedPosition(open), close);
      trade.pnlPercent == (close.price / open.price - 1.0) * 100.0 * Direction(open.side)
  {
  }

  /** The committed effect of one event: nothing for a known id, an ignored insert for an
      OPEN whose position exists, an error for a CLOSE that cannot be written. */
  function Apply(t: Tables, e: Event): Result<Tables, Error> {
    if e.eventId in t.events then Ok(t)
    else
      var events := t.events[e.eventId := e];
      match e.kind
      case VirtualOpen =>
        Ok(t.(events := events,
              positions := if e.positionId in t.positions then t.positions
                           else t.positions[e.positionId := OpenedPosition(e)]))
      case VirtualClose =>
        if e.positionId !in t.positions then Err(PositionNotFound)
        else
          var p := t.positions[e.positionId];
          if p.openedAt.Unreadable? || e.timestamp.Unreadable? then Err(BadTimestamp)
          else if p.positionId in t.trades then Err(TradeExists)
          else Ok(Tables(t.positions - {p.positionId}, t.trades[p.positionId := ClosedTrade(p, e)], events))
  }

  function Process(t: Tables, m: Raw): Result<Tables, Error> {
    match Validate(m)
    case Ok(e) => Apply(t, e)
    case Err(error) => Err(error)
  }

  /** The statements of the transaction at which the database may raise. */
  datatype Fault = NoFault | OnBegin | OnSelect | OnFirstWrite | OnDelete | OnRecord | OnCommit

  class Database {
    var positions: map<Id, VPosition>
    var trades: map<Id, VTrade>
    var events: map<Id, Event>

    function Contents(): Tables
      reads this
    {
      Tables(positions, trades, events)
    }

    constructor ()
      ensures Contents() == Tables(map[], map[], map[])
    {
      positions, trades, events := map[], map[], map[];
    }

    /** One transaction, statement by statement.  A fault at any of them, or any check that
        raises, leaves the tables as they were. */
    method ApplyVirtualTradeEvent(e: Event, fault: Fault) returns (r: Result<bool, Error>)
      modifies this
      ensures r.Err? ==> Contents() == old(Contents())
      ensures r.Ok? ==> Apply(old(Contents()), e) == Ok(Contents()) && r.value == (e.eventId !in old(events))
      ensures Apply(old(Contents()), e).Err? ==> r.Err?
      ensures fault == NoFault && Apply(old(Contents()), e).Ok? ==> r.Ok?
      ensures r.Ok? ==> fault != OnBegin && fault != OnSelect && fault != OnCommit
      ensures r.Ok? && e.eventId !in old(events) ==>
        fault != OnFirstWrite && fault != OnRecord && (e.kind == VirtualClose ==> fault != OnDelete)
    {
      if fault == OnBegin || fault == OnSelect {
        return Err(DatabaseFault);
      }
      if e.eventId in events {
        return if fault == OnCommit then Err(DatabaseFault) else Ok(false);
      }
      var before := Contents();
      var failure := None;
      match e.kind {
        case VirtualOpen =>
          if fault == OnFirstWrite {
            failure := Some(DatabaseFault);
          } else if e.positionId !in positions {
            positions := positions[e.positionId := OpenedPosition(e)];
          }
        case VirtualClose =>
          if e.positionId !in positions {
            failure := Some(PositionNotFound);
          } else {
            var p := positions[e.positionId];
            if p.openedAt.Unreadable? || e.timestamp.Unreadable? {
              failure := Some(BadTimestamp);
            } else if fault == OnFirstWrite {
              failure := Some(DatabaseFault);
            } else if p.positionId in trades {
              failure := Some(TradeExists);
            } else {
              trades := trades[p.positionId := ClosedTrade(p, e)];
              if fault == OnDelete {
                failure := Some(DatabaseFault);
              } else {
                positions := positions - {p.positionId};
              }
            }
          }
      }
      if failure.None? {
        events := events[e.eventId := e];
        if fault == OnRecord || fault == OnCommit {
          failure := Some(DatabaseFault);
        }
      }
      if failure.Some? {
        positions, trades, events := before.positions, before.trades, before.events;
        return Err(failure.value);
      }
      r := Ok(true);
    }
  }

  // --------------------------------------------- what the tables say about the event log

  predicate SameName(d: Event, e: Event) {
    d.eventId == e.eventId || (d.kind == e.kind && d.positionId == e.positionId)
  }

  /** A position id is opened by one event and closed by one event, and an event id names
      one event.  Copies of an event are allowed. */
  ghost predicate Distinct(log: set<Event>) {
    forall d, e :: d in log && e in log && SameName(d, e) ==> d == e
  }

  predicate Recorded(t: Tables, e: Event) { e.eventId in t.events && t.events[e.eventId] == e }

  ghost predicate Touches(log: set<Event>, kind: Kind, p: Id, e: Event) {
    e in log && e.kind == kind && e.positionId == p
  }

  /** The log's OPEN, or CLOSE, of a position id. */
  ghost function EventFor(log: set<Event>, kind: Kind, p: Id): (r: Option<Event>)
    ensures r.Some? ==> Touches(log, kind, p, r.value)
    ensures r.None? ==> forall e :: !Touches(log, kind, p, e)
  {
    if e :| Touches(log, kind, p, e) then Some(e) else None
  }

  ghost predicate Done(t: Tables, log: set<Event>, kind: Kind, p: Id) {
    EventFor(log, kind, p).Some? && Recorded(t, EventFor(log, kind, p).value)
  }

  /** The positions are the opened and not yet closed ones, the trades the closed ones, each
      with the content that its own OPEN and CLOSE give it. */
  ghost predicate Faithful(t: Tables, log: set<Event>) {
    && (forall id :: id in t.events ==> t.events[id].eventId == id && t.events[id] in log)
    && FaithfulPositions(t, log) && FaithfulTrades(t, log)
  }

  ghost predicate FaithfulPositions(t: Tables, log: set<Event>) {
    && (forall p :: p in t.positions <==> Done(t, log, VirtualOpen, p) && !Done(t, log, VirtualClose, p))
    && (forall p :: p in t.positions ==> t.positions[p] == OpenedPosition(EventFor(log, VirtualOpen, p).value))
  }

  ghost predicate FaithfulTrades(t: Tables, log: set<Event>) {
    && (forall p :: p in t.trades <==> Done(t, log, VirtualClose, p))
    && (forall p :: p in t.trades ==> Done(t, log, VirtualOpen, p))
    && (forall p :: p in t.trades ==>
          IsClosed(t.trades[p], EventFor(log, VirtualOpen, p).value, EventFor(log, VirtualClose, p).value))
  }

  ghost predicate IsClosed(trade: VTrade, o: Event, c: Event) {
    o.timestamp.At? && c.timestamp.At? && trade == ClosedTrade(OpenedPosition(o), c)
  }

  lemma EventForIs(log: set<Event>, e: Event)
    requires Distinct(log) && e in log
    ensures EventFor(log, e.kind, e.positionId) == Some(e)
  {
    assert Touches(log, e.kind, e.positionId, e);
  }

  /** Recording e marks e's own position id as opened or closed, and no other. */
  lemma DoneAfter(t: Tables, t': Tables, log: set<Event>, e: Event, kind: Kind, p: Id)
    requires Distinct(log) && e in log && e.eventId !in t.events && t'.events == t.events[e.eventId := e]
    ensures Done(t', log, kind, p) <==> Done(t, log, kind, p) || (kind == e.kind && p == e.positionId)
  {
    EventForIs(log, e);
  }

  lemma DoneAfterAll(t: Tables, t': Tables, log: set<Event>, e: Event)
    requires Distinct(log) && e in log && e.eventId !in t.events && t'.events == t.events[e.eventId := e]
    ensures forall p :: Done(t', log, e.kind, p) <==> Done(t, log, e.kind, p) || p == e.positionId
    ensures forall p, kind :: kind != e.kind ==> (Done(t', log, kind, p) <==> Done(t, log, kind, p))
    ensures !Done(t, log, e.kind, e.positionId)
  {
    forall p, kind ensures Done(t', log, kind, p) <==> Done(t, log, kind, p) || (kind == e.kind && p == e.positionId) {
      DoneAfter(t, t', log, e, kind, p);
    }
    EventForIs(log, e);
  }

  lemma OpenStaysFaithful(t: Tables, log: set<Event>, e: Event)
    requires Distinct(log) && Faithful(t, log) && e in log && e.kind.VirtualOpen? && e.eventId !in t.events
    ensures Faithful(Apply(t, e).value, log)
  {
    EventForIs(log, e);
    DoneAfterAll(t, Apply(t, e).value, log, e);
  }

  lemma CloseKeepsPositions(t: Tables, t': Tables, log: set<Event>, e: Event)
    requires Distinct(log) && FaithfulPositions(t, log) && e in log && e.kind.VirtualClose? && e.eventId !in t.events
    requires t'.events == t.events[e.eventId := e] && t'.positions == t.positions - {e.positionId}
    ensures FaithfulPositions(t', log)
  {
    DoneAfterAll(t, t', log, e);
  }

  lemma CloseKeepsTrades(t: Tables, t': Tables, log: set<Event>, e: Event, o: Event)
    requires Distinct(log) && FaithfulTrades(t, log) && e in log && e.kind.VirtualClose? && e.eventId !in t.events
    requires t'.events == t.events[e.eventId := e]
    requires Done(t, log, VirtualOpen, e.positionId) && o == EventFor(log, VirtualOpen, e.positionId).value
    requires o.timestamp.At? && e.timestamp.At?
    requires t'.trades == t.trades[e.positionId := ClosedTrade(OpenedPosition(o), e)]
    ensures FaithfulTrades(t', log)
  {
    EventForIs(log, e);
    DoneAfterAll(t, t', log, e);
    assert IsClosed(t'.trades[e.positionId], o, e);
    hide IsClosed, ClosedTrade, Distinct;
  }

  lemma CloseStaysFaithful(t: Tables, log: set<Event>, e: Event)
    requires Distinct(log) && Faithful(t, log) && e in log
    requires e.kind.VirtualClose? && e.eventId !in t.events && Apply(t, e).Ok?
    ensures Faithful(Apply(t, e).value, log)
  {
    hide ClosedTrade, Distinct, FaithfulTrades;
    CloseKeepsPositions(t, Apply(t, e).value, log, e);
    CloseKeepsTrades(t, Apply(t, e).value, log, e, EventFor(log, VirtualOpen, e.positionId).value);
  }

  /** Every event of a distinct log keeps the tables faithful, whatever the order. */
  lemma ApplyStaysFaithful(t: Tables, log: set<Event>, e: Event)
    requires Distinct(log) && Faithful(t, log) && e in log && Apply(t, e).Ok?
    ensures Faithful(Apply(t, e).value, log)
  {
    if e.eventId !in t.events {
      if e.kind.VirtualOpen? {
        OpenStaysFaithful(t, log, e);
      } else {
        CloseStaysFaithful(t, log, e);
      }
    }
  }

  lemma ApplyRecords(t: Tables, log: set<Event>, e: Event)
    requires Distinct(log) && Faithful(t, log) && e in log && Apply(t, e).Ok?
    ensures Recorded(Apply(t, e).value, e)
    ensures forall d :: Recorded(t, d) ==> Recorded(Apply(t, e).value, d)
    ensures forall d :: Recorded(Apply(t, e).value, d) ==> Recorded(t, d) || d == e
  {
  }

  /** Exactly when an attempt can succeed: a redelivery, an OPEN, or a CLOSE whose OPEN has
      been recorded (with both timestamps readable).  Nothing else ever stands in the way. */
  lemma AttemptSucceeds(t: Tables, log: set<Event>, e: Event)
    requires Distinct(log) && Faithful(t, log) && e in log
    ensures Apply(t, e).Ok? <==>
      e.eventId in t.events || e.kind.VirtualOpen? ||
      (e.timestamp.At? && Done(t, log, VirtualOpen, e.positionId) &&
       EventFor(log, VirtualOpen, e.positionId).value.timestamp.At?)
  {
  }

  lemma SameRecordsSameDone(t: Tables, u: Tables, log: set<Event>)
    requires t.events == u.events
    ensures forall kind, p :: Done(t, log, kind, p) == Done(u, log, kind, p)
  {
  }

  lemma SameClosedTrade(a: VTrade, b: VTrade, o: Event, c: Event)
    requires IsClosed(a, o, c) && IsClosed(b, o, c)
    ensures a == b
  {
  }

  /** Faithful tables with the same recorded events are the same tables. */
  lemma FaithfulIsUnique(t: Tables, u: Tables, log: set<Event>)
    requires Faithful(t, log) && Faithful(u, log) && t.events == u.events
    ensures t == u
  {
    SameRecordsSameDone(t, u, log);
    hide Done, IsClosed;
    assert t.positions.Keys == u.positions.Keys && t.trades.Keys == u.trades.Keys;
    forall p | p in t.trades ensures t.trades[p] == u.trades[p] {
      var o, c := EventFor(log, VirtualOpen, p).value, EventFor(log, VirtualClose, p).value;
      SameClosedTrade(t.trades[p], u.trades[p], o, c);
    }
  }

  // --------------------------------------------------------- the log applied in order

  function Replay(t: Tables, log: seq<Event>): Result<Tables, Error>
    decreases |log|
  {
    if log == [] then Ok(t)
    else
      match Apply(t, log[0])
      case Ok(next) => Replay(next, log[1..])
      case Err(error) => Err(error)
  }

  function EventsOf(log: seq<Event>): set<Event> { set e | e in log }

  const EMPTY: Tables := Tables(map[], map[], map[])

  lemma {:induction false} ReplayIsFaithful(t: Tables, log: seq<Event>, all: set<Event>)
    requires Distinct(all) && Faithful(t, all) && EventsOf(log) <= all && Replay(t, log).Ok?
    ensures Faithful(Replay(t, log).value, all)
    ensures forall e :: Recorded(Replay(t, log).value, e) <==> e in log || Recorded(t, e)
    decreases |log|
  {
    if log != [] {
      var rest := log[1..];
      assert log[0] in log && forall e :: e in log <==> e == log[0] || e in rest;
      ApplyStaysFaithful(t, all, log[0]);
      ApplyRecords(t, all, log[0]);
      assert EventsOf(rest) <= all;
      ReplayIsFaithful(Apply(t, log[0]).value, rest, all);
    }
  }

  lemma {:induction false} ReplayAppend(t: Tables, log: seq<Event>, e: Event)
    ensures Replay(t, log + [e]) == match Replay(t, log) case Ok(u) => Apply(u, e) case Err(x) => Err(x)
    decreases |log|
  {
    if log == [] {
      assert (log + [e])[1..] == [];
    } else if Apply(t, log[0]).Ok? {
      ReplayAppend(Apply(t, log[0]).value, log[1..], e);
      assert (log + [e])[1..] == log[1..] + [e];
    }
  }

  lemma {:induction false} ReplayConcat(t: Tables, a: seq<Event>, b: seq<Event>)
    requires Replay(t, a).Ok?
    ensures Replay(t, a + b) == Replay(Replay(t, a).value, b)
    decreases |a|
  {
    if a == [] {
      assert a + b == b;
    } else {
      ReplayConcat(Apply(t, a[0]).value, a[1..], b);
      assert (a + b)[1..] == a[1..] + b;
    }
  }

  /** Redelivering events whose ids are all known changes nothing. */
  lemma {:induction false} ReplayOfKnown(t: Tables, log: seq<Event>)
    requires forall i :: 0 <= i < |log| ==> log[i].eventId in t.events
    ensures Replay(t, log) == Ok(t)
    decreases |log|
  {
    if log != [] {
      ReplayOfKnown(t, log[1..]);
    }
  }

  /** A log that fails fails at the same event whatever follows. */
  lemma {:induction false} ReplayStaysFailed(t: Tables, a: seq<Event>, b: seq<Event>)
    requires Replay(t, a).Err?
    ensures Replay(t, a + b) == Replay(t, a)
    decreases |a|
  {
    assert (a + b)[1..] == a[1..] + b;
    if Apply(t, a[0]).Ok? {
      ReplayStaysFailed(Apply(t, a[0]).value, a[1..], b);
    }
  }

  // -------------------------------------------------------- where a row of the tables is from

  predicate OnlyOpens(log: seq<Event>) { forall i :: 0 <= i < |log| ==> log[i].kind.VirtualOpen? }

  lemma {:induction false} OpensNeverFail(t: Tables, log: seq<Event>)
    requires OnlyOpens(log)
    ensures Replay(t, log).Ok?
    decreases |log|
  {
    if log != [] {
      OpensNeverFail(Apply(t, log[0]).value, log[1..]);
    }
  }

  /** Every OPEN of the position in the log has an id that is known beforehand. */
  predicate NoNewOpen(t: Tables, log: seq<Event>, p: Id) {
    forall i :: 0 <= i < |log| && log[i].kind.VirtualOpen? && log[i].positionId == p ==> log[i].eventId in t.events
  }

  lemma {:induction false} AbsentUnlessOpened(t: Tables, log: seq<Event>, p: Id)
    requires p !in t.positions && NoNewOpen(t, log, p) && Replay(t, log).Ok?
    ensures p !in Replay(t, log).value.positions
    decreases |log|
  {
    if log != [] {
      var next, rest := Apply(t, log[0]).value, log[1..];
      assert forall i :: 0 <= i < |rest| ==> rest[i] == log[i + 1];
      AbsentUnlessOpened(next, rest, p);
    }
  }

  lemma {:induction false} OpensKeepPositions(t: Tables, log: seq<Event>, p: Id)
    requires p in t.positions && OnlyOpens(log) && Replay(t, log).Ok?
    ensures p in Replay(t, log).value.positions
    decreases |log|
  {
    if log != [] {
      OpensKeepPositions(Apply(t, log[0]).value, log[1..], p);
    }
  }

  predicate OnlyClosesOf(log: seq<Event>, id: Id, p: Id) {
    forall i :: 0 <= i < |log| && log[i].eventId == id ==> log[i].kind.VirtualClose? && log[i].positionId == p
  }

  /** A CLOSE under a new id, of a position that is not there and that nothing opens, stops the log. */
  lemma {:induction false} CloseOfAbsentFails(t: Tables, log: seq<Event>, id: Id, p: Id)
    requires p !in t.positions && NoNewOpen(t, log, p) && id !in t.events && HasId(log, id) && OnlyClosesOf(log, id, p)
    ensures Replay(t, log).Err?
    decreases |log|
  {
    if Apply(t, log[0]).Ok? {
      var next, rest := Apply(t, log[0]).value, log[1..];
      assert forall i :: 0 <= i < |rest| ==> rest[i] == log[i + 1];
      assert log[0].eventId != id;
      assert HasId(rest, id) by {
        var i :| 0 <= i < |log| && log[i].eventId == id;
        assert rest[i - 1].eventId == id;
      }
      CloseOfAbsentFails(next, rest, id, p);
    }
  }

  predicate HasId(log: seq<Event>, id: Id) { exists i :: 0 <= i < |log| && log[i].eventId == id }

  lemma {:induction false} RecordedFromLog(t: Tables, log: seq<Event>, id: Id)
    requires Replay(t, log).Ok? && id in Replay(t, log).value.events
    ensures id in t.events || HasId(log, id)
    decreases |log|
  {
    if log != [] {
      RecordedFromLog(Apply(t, log[0]).value, log[1..], id);
      if HasId(log[1..], id) {
        var i :| 0 <= i < |log[1..]| && log[1..][i].eventId == id;
        assert log[i + 1].eventId == id;
      }
      assert log[0].eventId == id ==> HasId(log, id);
    }
  }
}
