/** What one message of the virtual ledger does: when it is accepted, which event it stands for, and which rows the
    transaction writes. */
module VirtualEffects {
  import opened Wrappers
  import opened VirtualLedger
  import C = VirtualConsumer
  import SessionClock

  /** A field that is there. */
  predicate Has<T(==)>(field: Option<T>, x: T) { field == Some(x) }

  predicate IsPositive(field: Option<Number>) { field.Some? && field.value.Num? && field.value.value > 0.0 }

  /** The message is an object in virtual mode with every required field, a known type and side, and a positive price
      and quantity. */
  predicate IsAcceptable(m: Raw) {
    && m != NotObject && m.mode == Some("virtual")
    && (m.kind == Some("VIRTUAL_OPEN") || m.kind == Some("VIRTUAL_CLOSE"))
    && (m.side == Some("LONG") || m.side == Some("SHORT"))
    && m.eventId != None && m.positionId != None && m.alphaId != None && m.symbol != None && m.timestamp != None
    && IsPositive(m.price) && IsPositive(m.qty)
  }

  /** The event says what the message says; an absent exchange is Binance and an absent reason a rebalance. */
  predicate StandsFor(m: Raw, e: Event)
    requires m.Raw?
  {
    && Has(m.eventId, e.eventId) && Has(m.positionId, e.positionId) && Has(m.alphaId, e.alphaId)
    && Has(m.symbol, e.symbol) && Has(m.timestamp, e.timestamp)
    && m.price == Some(Num(e.price)) && m.qty == Some(Num(e.qty))
    && (m.kind == Some("VIRTUAL_OPEN") <==> e.kind == VirtualOpen) && (m.side == Some("LONG") <==> e.side == Long)
    && e.candle == m.candle && e.metadata == m.metadata
    && (if m.exchange == None then e.exchange == Binance else Has(m.exchange, e.exchange))
    && (if m.reason == None then e.reason == "VIRTUAL_REBALANCE" else Has(m.reason, e.reason))
  }

  /** A message is accepted exactly if it is acceptable, and then as the event it stands for. */
  lemma ValidateMeans(m: Raw)
    ensures Validate(m).Ok? <==> IsAcceptable(m)
    ensures Validate(m).Ok? ==> StandsFor(m, Validate(m).value)
  {
  }

  predicate IsOpened(p: VPosition, e: Event) {
    && p.positionId == e.positionId && p.signalId == e.eventId && p.alphaId == e.alphaId && p.symbol == e.symbol
    && p.side == e.side && p.entryPrice == e.price && p.qty == e.qty && p.openedAt == e.timestamp
    && p.metadata == e.metadata && p.exchange == e.exchange
  }

  /** The trade of a position at the event's price: no fee, and the percentage of what it cost. */
  predicate IsTrade(x: VTrade, p: VPosition, e: Event) {
    && p.openedAt.At? && e.timestamp.At?
    && x.tradeId == p.positionId && x.signalId == e.eventId && x.alphaId == e.alphaId && x.symbol == p.symbol
    && x.side == p.side && x.entryPrice == p.entryPrice && x.exitPrice == e.price && x.qty == p.qty
    && x.pnl == (if p.side == Long then e.price - p.entryPrice else p.entryPrice - e.price) * p.qty
    && x.pnlPercent == (if p.entryPrice * p.qty == 0.0 then 0.0 else x.pnl / (p.entryPrice * p.qty) * 100.0)
    && x.durationHours == SessionClock.DurationHours(p.openedAt.ticks, e.timestamp.ticks, p.exchange == Tcbs)
    && x.reason == e.reason && x.closeCandle == e.candle && x.openedAt == p.openedAt && x.closedAt == e.timestamp
    && x.openMetadata == p.metadata && x.exchange == p.exchange
  }

  predicate Unreadables(p: VPosition, e: Event) { p.openedAt.Unreadable? || e.timestamp.Unreadable? }

  /** A known id changes nothing.  An OPEN records itself, and adds its position unless one is there.  A CLOSE needs its
      position, readable times and an unused trade id; then it records itself and moves the position to the trades. */
  lemma ApplyMeans(t: Tables, e: Event)
    ensures var r, p := Apply(t, e), e.positionId;
      if e.eventId in t.events then r == Ok(t)
      else if e.kind == VirtualOpen then
        && r.Ok? && r.value.trades == t.trades && r.value.events == t.events[e.eventId := e]
        && (if p in t.positions then r.value.positions == t.positions
            else p in r.value.positions && r.value.positions - {p} == t.positions && IsOpened(r.value.positions[p], e))
      else if p !in t.positions then r == Err(PositionNotFound)
      else
        var row := t.positions[p];
        if Unreadables(row, e) then r == Err(BadTimestamp)
        else if row.positionId in t.trades then r == Err(TradeExists)
        else
          && r.Ok? && r.value.positions == t.positions - {row.positionId} && r.value.events == t.events[e.eventId := e]
          && row.positionId in r.value.trades && r.value.trades - {row.positionId} == t.trades
          && IsTrade(r.value.trades[row.positionId], row, e)
  {
    if e.eventId !in t.events && e.kind == VirtualClose && e.positionId in t.positions &&
       !Unreadables(t.positions[e.positionId], e)
    {
      ClosedIsTrade(t.positions[e.positionId], e);
      hide ClosedTrade, IsTrade;
    }
  }

  lemma ClosedIsTrade(p: VPosition, e: Event)
    requires p.openedAt.At? && e.timestamp.At?
    ensures IsTrade(ClosedTrade(p, e), p, e)
  {
  }

  /** A message that is not acceptable is refused, and changes nothing. */
  lemma ProcessMeans(t: Tables, m: Raw)
    ensures !IsAcceptable(m) ==> Process(t, m).Err?
    ensures IsAcceptable(m) ==> exists e :: StandsFor(m, e) && Process(t, m) == Apply(t, e)
  {
    ValidateMeans(m);
    hide Validate, StandsFor, Apply;
    if IsAcceptable(m) {
      assert StandsFor(m, Validate(m).value) && Process(t, m) == Apply(t, Validate(m).value);
    }
  }

  /** In every run, whatever fails: each delivered message is pending or acked and not both, and an acked one was
      acceptable and has its event id recorded. */
  lemma AckedIsRecorded(log: seq<Raw>, steps: seq<C.Step>, i: nat)
    requires C.IsRun(C.INITIAL, log, steps) && i < |log|
    ensures var c := C.Run(C.INITIAL, log, steps);
      && (i < c.delivered <==> (i in c.pending) != (i in c.acked))
      && (i in c.acked ==>
            IsAcceptable(log[i]) && log[i].eventId.Some? && log[i].eventId.value in c.tables.events)
  {
    C.AckedOnlyIfRecorded(log, steps);
    ValidateMeans(log[i]);
  }
}
