/** The order manager object of a trading client. */
module OrderManagers {
  import opened Types
  import opened Positions
  import opened DeltaStream
  import opened ReplicaModel
  import opened ManagerModel
  import opened Admission
  import opened LocalCheck

  class OrderManager {
    var lastReport: nat
    var orders: map<OrderId, Message>
    var positions: map<InstrumentId, Position>

    ghost function State(): Manager
      reads this
    {
      Manager(lastReport, orders, positions)
    }

    constructor ()
      ensures State() == NEW_MANAGER
    {
      lastReport, orders, positions := 0, map[], map[];
    }

    /** Takes in one private report; false if it is ignored. */
    method Consume(m: Message) returns (taken: bool)
      modifies this
      ensures State() == ManagerModel.Consume(old(State()), m)
      ensures taken == !Ignores(old(State()), m)
    {
      hide Positions.Fill;
      if m.kind != Report || m.report == StatusReport || m.sequence <= lastReport {
        return false;
      }
      lastReport := m.sequence;
      if m.report == Accepted || m.report == Replaced {
        orders := orders[m.orderId := m.(quantity := m.remaining)];
      } else if m.report == ReportType.Fill {
        var p := if m.instrumentId in positions then positions[m.instrumentId] else FLAT;
        positions := positions[m.instrumentId := Positions.Fill(p, m.side, m.price, m.quantity)];
        SetRemaining(m.orderId, m.remaining);
      } else if m.report == Cancelled {
        orders := orders - {m.orderId};
      } else if m.report == Complete && m.reject == NoReject && m.orderId != 0 {
        SetRemaining(m.orderId, m.remaining);
      }
      taken := true;
    }

    method SetRemaining(id: OrderId, remaining: Quantity)
      modifies `orders
      ensures orders == Adjust(old(orders), id, remaining)
    {
      if id in orders {
        orders := orders[id := orders[id].(quantity := remaining)];
        if remaining == 0 {
          orders := orders - {id};
          assert orders == old(orders) - {id};
        }
      }
    }

    /** The check before a command is sent: kill switch, size, notional, open orders, position. */
    method Check(c: Message, limits: Rules, market: Replica, maxLoss: real) returns (why: Reject)
      ensures why == LocalRefusal(State(), c, limits, market, maxLoss)
      ensures why == NoReject
         <==> c.action == Action.Cancel || c.action == CancelAll || MayBeSent(State(), c, limits, market, maxLoss)
    {
      CheckLaw(State(), c, limits, market, maxLoss);
      hide MayBeSent;
      hide ReservedBy;
      if c.action == Action.Cancel || c.action == CancelAll {
        return NoReject;
      }
      if !market.synchronized {
        return KillSwitch;
      }
      if c.quantity == 0 || c.quantity > limits.maxOrderQuantity {
        return RiskQuantity;
      }
      var p := if c.instrumentId in positions then positions[c.instrumentId] else FLAT;
      var mark := if c.price != 0 then c.price as real else p.averagePrice;
      var book := BookAt(market.books, c.instrumentId);
      if book.bids != [] && book.asks != [] {
        mark := (book.bids[0].price as real + book.asks[0].price as real) / 2.0;
      }
      if Pnl(p, mark) < -maxLoss {
        return KillSwitch;
      }
      if (if c.orderType == Market then limits.maxPrice else c.price) * c.quantity > limits.maxNotional {
        return RiskNotional;
      }
      var reserved, open := Exposed(c);
      if open >= limits.maxOpenOrders {
        return RiskOpenOrders;
      }
      if Abs(p.quantity + (if c.side == Bid then 1 else -1) * (reserved + c.quantity)) > limits.maxPosition {
        return RiskPosition;
      }
      why := NoReject;
    }

    /** Quantity reserved on the command's side and number of open orders, leaving out one being replaced. */
    method Exposed(c: Message) returns (reserved: int, open: nat)
      ensures reserved == ReservedBy(Others(State(), c), c.instrumentId, c.side)
      ensures open == |Others(State(), c)|
    {
      hide ReservedBy, Visited;
      reserved, open := 0, 0;
      ghost var others := Others(State(), c);
      var todo := orders.Keys;
      ghost var seen: map<OrderId, Message> := map[];
      NothingReservedBy(c.instrumentId, c.side);
      NoneVisited(others, todo);
      while todo != {}
        invariant todo <= orders.Keys
        invariant seen == Visited(others, todo)
        invariant reserved == ReservedBy(seen, c.instrumentId, c.side)
        invariant open == |seen|
        decreases todo
      {
        var o :| o in todo;
        ghost var before := seen;
        VisitedStep(others, todo, o);
        todo := todo - {o};
        if !(c.action == Replace && o == c.orderId) {
          open := open + 1;
          if orders[o].instrumentId == c.instrumentId && orders[o].side == c.side {
            reserved := reserved + orders[o].quantity;
          }
          seen := before[o := orders[o]];
          assert seen - {o} == before;
          ReservedByRemove(seen, o, c.instrumentId, c.side);
        }
      }
      AllVisited(others);
    }
  }

  /** The part of a map that is no longer on the list. */
  ghost function Visited(others: map<OrderId, Message>, todo: set<OrderId>): map<OrderId, Message> {
    map o | o in others && o !in todo :: others[o]
  }

  lemma VisitedStep(others: map<OrderId, Message>, todo: set<OrderId>, o: OrderId)
    requires o in todo
    ensures o !in Visited(others, todo)
    ensures Visited(others, todo - {o}) == if o in others then Visited(others, todo)[o := others[o]] else Visited(others, todo)
  {
  }

  lemma AllVisited(others: map<OrderId, Message>)
    ensures Visited(others, {}) == others
  {
  }

  lemma NoneVisited(others: map<OrderId, Message>, todo: set<OrderId>)
    requires others.Keys <= todo
    ensures Visited(others, todo) == map[]
  {
  }

  lemma NothingReservedBy(i: InstrumentId, side: Side)
    ensures ReservedBy(map[], i, side) == 0
  {
    assert OpenBy(map[], i, side) == map[];
  }
}
