/**
 What every inventory command keeps: balances within bounds, reserved and on-hand quantities equal to the sums
 of the rows behind them, and stock conserved across transfers.
 */
module InventoryInvariant {
  import opened Wrappers
  import opened Inventory

  // ----- sums

  /** What active reservations hold of a balance. */
  function ActiveQuantity(reservations: seq<Reservation>, key: Key): nat {
    if reservations == [] then 0
    else
      var last := reservations[|reservations| - 1];
      ActiveQuantity(reservations[..|reservations| - 1], key)
        + (if last.key == key && last.status == Active then last.quantity else 0)
  }

  function StockQuantity(movement: Movement, key: Key): int {
    if movement.key == key && (movement.kind == Receipt || movement.kind == Issue) then movement.quantity else 0
  }

  /** What receipts and issues have brought into a balance. */
  function MovedQuantity(movements: seq<Movement>, key: Key): int {
    if movements == [] then 0
    else MovedQuantity(movements[..|movements| - 1], key) + StockQuantity(movements[|movements| - 1], key)
  }

  /** What the lines carry of an item. */
  function QuantityOf(lines: seq<TransferLine>, item: string): nat {
    if lines == [] then 0
    else QuantityOf(lines[..|lines| - 1], item)
         + (if lines[|lines| - 1].item == item then lines[|lines| - 1].quantity else 0)
  }

  /** What confirmed transfers have taken out of a warehouse and not yet brought into another. */
  function InTransit(transfers: seq<Transfer>, item: string): nat {
    if transfers == [] then 0
    else
      var last := transfers[|transfers| - 1];
      InTransit(transfers[..|transfers| - 1], item) + (if last.status == Confirmed then QuantityOf(last.lines, item) else 0)
  }

  function OnHandEverywhere(warehouses: seq<Warehouse>, balances: map<Key, Balance>, item: string): int {
    if warehouses == [] then 0
    else OnHandEverywhere(warehouses[..|warehouses| - 1], balances, item)
         + In(balances, Key(warehouses[|warehouses| - 1].id, item)).onHand
  }

  function TotalStock(s: Stock, item: string): int {
    OnHandEverywhere(s.warehouses, s.balances, item) + InTransit(s.transfers, item)
  }

  // ----- the invariant

  predicate Bounded(balance: Balance) {
    0 <= balance.reserved <= balance.onHand
  }

  ghost predicate BalanceFits(s: Stock, key: Key) {
    && Bounded(In(s.balances, key))
    && In(s.balances, key).reserved == ActiveQuantity(s.reservations, key)
    && In(s.balances, key).onHand == MovedQuantity(s.movements, key)
  }

  predicate TransferFits(s: Stock, t: Transfer) {
    && t.source != t.destination && DistinctItems(t.lines)
    && FindWarehouse(s.warehouses, t.source).Some? && FindWarehouse(s.warehouses, t.destination).Some?
  }

  ghost predicate DistinctWarehouses(warehouses: seq<Warehouse>) {
    forall i, j | 0 <= i < j < |warehouses| :: warehouses[i].id != warehouses[j].id
  }

  ghost predicate Fits(s: Stock) {
    && DistinctWarehouses(s.warehouses)
    && (forall key :: BalanceFits(s, key))
    && (forall i | 0 <= i < |s.reservations| :: s.reservations[i].key in s.balances)
    && (forall i | 0 <= i < |s.transfers| :: TransferFits(s, s.transfers[i]))
  }

  /** A tenant's warehouses and items, before any stock. */
  ghost predicate Initial(s: Stock) {
    DistinctWarehouses(s.warehouses) && s.balances == map[] && s.reservations == [] && s.movements == [] && s.transfers == []
  }

  // ----- how the sums change

  lemma {:induction false} ActiveAfterUpdate(reservations: seq<Reservation>, id: nat, status: ReservationStatus, key: Key)
    requires id < |reservations| && reservations[id].status == Active && status != Active
    ensures ActiveQuantity(reservations[id := reservations[id].(status := status)], key)
         == ActiveQuantity(reservations, key) - (if reservations[id].key == key then reservations[id].quantity else 0)
    decreases |reservations|
  {
    var init := reservations[..|reservations| - 1];
    var updated := reservations[id := reservations[id].(status := status)];
    if id == |reservations| - 1 {
      assert updated[..|updated| - 1] == init;
    } else {
      ActiveAfterUpdate(init, id, status, key);
      assert updated[..|updated| - 1] == init[id := init[id].(status := status)];
    }
  }

  lemma ActiveAfterAppend(reservations: seq<Reservation>, added: Reservation, key: Key)
    ensures ActiveQuantity(reservations + [added], key)
         == ActiveQuantity(reservations, key) + (if added.key == key && added.status == Active then added.quantity else 0)
  {
    assert (reservations + [added])[..|reservations|] == reservations;
  }

  lemma MovedAfterAppend(movements: seq<Movement>, added: Movement, key: Key)
    ensures MovedQuantity(movements + [added], key) == MovedQuantity(movements, key) + StockQuantity(added, key)
  {
    assert (movements + [added])[..|movements|] == movements;
  }

  lemma {:induction false} MovedAfterLines(movements: seq<Movement>, warehouse: string, lines: seq<TransferLine>, out: bool, key: Key)
    ensures MovedQuantity(movements + LineMovements(warehouse, lines, out), key)
         == MovedQuantity(movements, key) + LinesAt(warehouse, lines, out, key)
    decreases |lines|
  {
    if lines == [] {
      assert movements + [] == movements;
    } else {
      var init, last := lines[..|lines| - 1], lines[|lines| - 1];
      MovedAfterLines(movements, warehouse, init, out, key);
      MovedAfterAppend(movements + LineMovements(warehouse, init, out), LineMovement(warehouse, last, out), key);
      assert movements + LineMovements(warehouse, lines, out)
          == movements + LineMovements(warehouse, init, out) + [LineMovement(warehouse, last, out)];
    }
  }

  /** What moving the lines means for one balance. */
  function LinesAt(warehouse: string, lines: seq<TransferLine>, out: bool, key: Key): int {
    if key.warehouse != warehouse then 0 else if out then Minus(QuantityOf(lines, key.item)) else QuantityOf(lines, key.item)
  }

  lemma {:induction false} BalanceAfterLines(balances: map<Key, Balance>, warehouse: string, lines: seq<TransferLine>, out: bool, key: Key)
    ensures In(ShiftLines(balances, warehouse, lines, out), key)
         == Balance(In(balances, key).onHand + LinesAt(warehouse, lines, out, key), In(balances, key).reserved)
    decreases |lines|
  {
    if lines != [] { BalanceAfterLines(balances, warehouse, lines[..|lines| - 1], out, key); }
  }

  lemma {:induction false} TransitAfterUpdate(transfers: seq<Transfer>, id: nat, status: TransferStatus, item: string)
    requires id < |transfers|
    ensures InTransit(transfers[id := transfers[id].(status := status)], item)
         == InTransit(transfers, item)
            - (if transfers[id].status == Confirmed then QuantityOf(transfers[id].lines, item) else 0)
            + (if status == Confirmed then QuantityOf(transfers[id].lines, item) else 0)
    decreases |transfers|
  {
    var init := transfers[..|transfers| - 1];
    var updated := transfers[id := transfers[id].(status := status)];
    if id == |transfers| - 1 {
      assert updated[..|updated| - 1] == init;
    } else {
      TransitAfterUpdate(init, id, status, item);
      assert updated[..|updated| - 1] == init[id := init[id].(status := status)];
    }
  }

  lemma TransitAfterAppend(transfers: seq<Transfer>, added: Transfer, item: string)
    requires added.status == Draft
    ensures InTransit(transfers + [added], item) == InTransit(transfers, item)
  {
    assert (transfers + [added])[..|transfers|] == transfers;
  }

  lemma {:induction false} Elsewhere(warehouses: seq<Warehouse>, balances: map<Key, Balance>, key: Key, balance: Balance, item: string)
    requires key.item != item || forall i | 0 <= i < |warehouses| :: warehouses[i].id != key.warehouse
    ensures OnHandEverywhere(warehouses, balances[key := balance], item) == OnHandEverywhere(warehouses, balances, item)
  {
    if warehouses != [] { Elsewhere(warehouses[..|warehouses| - 1], balances, key, balance, item); }
  }

  /** Changing one balance changes the item's total by as much. */
  lemma {:induction false} TotalAfterShift(warehouses: seq<Warehouse>, balances: map<Key, Balance>, key: Key, onHand: int, reserved: int, item: string)
    requires DistinctWarehouses(warehouses) && FindWarehouse(warehouses, key.warehouse).Some?
    ensures OnHandEverywhere(warehouses, Shift(balances, key, onHand, reserved), item)
         == OnHandEverywhere(warehouses, balances, item) + (if key.item == item then onHand else 0)
    decreases |warehouses|
  {
    var balance := Balance(In(balances, key).onHand + onHand, In(balances, key).reserved + reserved);
    if key.item != item {
      Elsewhere(warehouses, balances, key, balance, item);
    } else {
      var init, last := warehouses[..|warehouses| - 1], warehouses[|warehouses| - 1];
      if last.id == key.warehouse {
        Elsewhere(init, balances, key, balance, item);
      } else {
        FoundBefore(warehouses, key.warehouse);
        TotalAfterShift(init, balances, key, onHand, reserved, item);
      }
    }
  }

  lemma {:induction false} FoundBefore(warehouses: seq<Warehouse>, id: string)
    requires warehouses != [] && warehouses[|warehouses| - 1].id != id && FindWarehouse(warehouses, id).Some?
    ensures FindWarehouse(warehouses[..|warehouses| - 1], id).Some?
  {
    if warehouses[0].id != id {
      FoundBefore(warehouses[1..], id);
      assert warehouses[..|warehouses| - 1][1..] == warehouses[1..][..|warehouses| - 2];
    }
  }

  lemma {:induction false} TotalAfterLines(warehouses: seq<Warehouse>, balances: map<Key, Balance>, warehouse: string, lines: seq<TransferLine>,
                                           out: bool, item: string)
    requires DistinctWarehouses(warehouses) && FindWarehouse(warehouses, warehouse).Some?
    ensures OnHandEverywhere(warehouses, ShiftLines(balances, warehouse, lines, out), item)
         == OnHandEverywhere(warehouses, balances, item) + (if out then Minus(QuantityOf(lines, item)) else QuantityOf(lines, item))
    decreases |lines|
  {
    if lines != [] {
      var init, last := lines[..|lines| - 1], lines[|lines| - 1];
      TotalAfterLines(warehouses, balances, warehouse, init, out, item);
      TotalAfterShift(warehouses, ShiftLines(balances, warehouse, init, out), Key(warehouse, last.item),
                      if out then Minus(last.quantity) else last.quantity, 0, item);
    }
  }

  /** With distinct items, what is asked of an item is what its one line asks. */
  lemma {:induction false} OneLinePerItem(lines: seq<TransferLine>, i: nat)
    requires DistinctItems(lines) && i < |lines|
    ensures QuantityOf(lines, lines[i].item) == lines[i].quantity
    decreases |lines|
  {
    var init, last := lines[..|lines| - 1], lines[|lines| - 1];
    if i < |lines| - 1 {
      OneLinePerItem(init, i);
    } else {
      NoLine(init, last.item);
    }
  }

  lemma {:induction false} NoLine(lines: seq<TransferLine>, item: string)
    requires forall i | 0 <= i < |lines| :: lines[i].item != item
    ensures QuantityOf(lines, item) == 0
  {
    if lines != [] { NoLine(lines[..|lines| - 1], item); }
  }

  /** An active reservation is covered by what is reserved. */
  lemma {:induction false} ActiveIsCounted(reservations: seq<Reservation>, id: nat)
    requires id < |reservations| && reservations[id].status == Active
    ensures ActiveQuantity(reservations, reservations[id].key) >= reservations[id].quantity
    decreases |reservations|
  {
    if id < |reservations| - 1 { ActiveIsCounted(reservations[..|reservations| - 1], id); }
  }

  // ----- every command keeps the invariant

  /** A receipt or issue that leaves what is reserved on hand. */
  lemma MovementKeeps(s: Stock, moved: Movement)
    requires Fits(s) && (moved.kind == Receipt || moved.kind == Issue)
    requires In(s.balances, moved.key).onHand + moved.quantity >= In(s.balances, moved.key).reserved
    ensures Fits(s.(balances := Shift(s.balances, moved.key, moved.quantity, 0), movements := s.movements + [moved]))
  {
    var t := s.(balances := Shift(s.balances, moved.key, moved.quantity, 0), movements := s.movements + [moved]);
    forall k ensures BalanceFits(t, k) {
      assert BalanceFits(s, k);
      MovedAfterAppend(s.movements, moved, k);
    }
    forall i | 0 <= i < |t.transfers| ensures TransferFits(t, t.transfers[i]) {
      assert TransferFits(s, s.transfers[i]);
    }
  }

  lemma ReceiveKeeps(s: Stock, key: Key, quantity: nat, legalEntityId: Option<string>)
    requires Fits(s)
    ensures Fits(Receive(s, key, quantity, legalEntityId).0)
  {
    assert BalanceFits(s, key);
    MovementKeeps(s, Movement(key, quantity, Receipt, None));
  }

  lemma AdjustMoves(s: Stock, c: Correction)
    ensures var t, moved := Adjust(s, c).0, Movement(c.key, c.adjustment, if c.adjustment < 0 then Issue else Receipt, Some(c));
      || t == s
      || (&& t == s.(balances := Shift(s.balances, c.key, c.adjustment, 0), movements := s.movements + [moved])
          && (c.adjustment < 0 ==> In(s.balances, c.key).onHand + c.adjustment >= In(s.balances, c.key).reserved))
  {
  }

  lemma AdjustKeeps(s: Stock, correction: Correction)
    requires Fits(s)
    ensures Fits(Adjust(s, correction).0)
  {
    AdjustMoves(s, correction);
    if Adjust(s, correction).0 != s {
      assert BalanceFits(s, correction.key);
      var kind := if correction.adjustment < 0 then Issue else Receipt;
      MovementKeeps(s, Movement(correction.key, correction.adjustment, kind, Some(correction)));
    }
  }

  lemma ReserveKeeps(s: Stock, key: Key, quantity: nat, idempotencyKey: Option<string>, legalEntityId: Option<string>)
    requires Fits(s)
    ensures Fits(Reserving(s, key, quantity, idempotencyKey, legalEntityId).0)
  {
    var t := Reserving(s, key, quantity, idempotencyKey, legalEntityId).0;
    if t != s {
      forall k ensures BalanceFits(t, k) {
        assert BalanceFits(s, k);
        ActiveAfterAppend(s.reservations, Reservation(key, quantity, idempotencyKey, Active), k);
        MovedAfterAppend(s.movements, Movement(key, quantity, Reserve, None), k);
      }
    }
  }

  lemma ReleaseKeeps(s: Stock, id: nat)
    requires Fits(s)
    ensures Fits(Releasing(s, id).0)
  {
    var t := Releasing(s, id).0;
    if t != s {
      var r := s.reservations[id];
      forall k ensures BalanceFits(t, k) {
        assert BalanceFits(s, k);
        ActiveAfterUpdate(s.reservations, id, Released, k);
        MovedAfterAppend(s.movements, Movement(r.key, Minus(r.quantity), Release, None), k);
      }
    }
  }

  lemma FulfillKeeps(s: Stock, id: nat)
    requires Fits(s)
    ensures Fits(Fulfilling(s, id).0)
  {
    var t := Fulfilling(s, id).0;
    if t != s {
      var r := s.reservations[id];
      forall k ensures BalanceFits(t, k) {
        assert BalanceFits(s, k);
        ActiveAfterUpdate(s.reservations, id, Fulfilled, k);
        MovedAfterAppend(s.movements, Movement(r.key, Minus(r.quantity), Issue, None), k);
      }
    }
  }

  lemma ConfirmKeeps(s: Stock, id: nat)
    requires Fits(s)
    ensures Fits(Confirming(s, id).0)
  {
    var after := Confirming(s, id).0;
    if after != s {
      var t := s.transfers[id];
      assert TransferFits(s, t);
      forall k ensures BalanceFits(after, k) {
        assert BalanceFits(s, k);
        BalanceAfterLines(s.balances, t.source, t.lines, true, k);
        MovedAfterLines(s.movements, t.source, t.lines, true, k);
        if i :| 0 <= i < |t.lines| && t.lines[i].item == k.item {
          OneLinePerItem(t.lines, i);
          assert Available(s.balances, t.source, t.lines[i]);
        } else {
          NoLine(t.lines, k.item);
        }
      }
    }
  }

  lemma CompleteKeeps(s: Stock, id: nat)
    requires Fits(s)
    ensures Fits(Completing(s, id).0)
  {
    var after := Completing(s, id).0;
    if after != s {
      var t := s.transfers[id];
      assert TransferFits(s, t);
      forall k ensures BalanceFits(after, k) {
        assert BalanceFits(s, k);
        BalanceAfterLines(s.balances, t.destination, t.lines, false, k);
        MovedAfterLines(s.movements, t.destination, t.lines, false, k);
      }
    }
  }

  lemma CreateKeeps(s: Stock, source: string, destination: string, lines: seq<TransferLine>)
    requires Fits(s)
    ensures Fits(CreatingTransfer(s, source, destination, lines).0)
  {
    var t := CreatingTransfer(s, source, destination, lines).0;
    forall k ensures BalanceFits(t, k) {
      assert BalanceFits(s, k);
    }
  }

  lemma ExecuteKeeps(s: Stock, command: Command)
    requires Fits(s)
    ensures Fits(Execute(s, command).0)
  {
    match command
    case ReceiveStock(key, quantity, entity) => ReceiveKeeps(s, key, quantity, entity);
    case AdjustStock(correction) => AdjustKeeps(s, correction);
    case ReserveStock(key, quantity, idempotencyKey, entity) => ReserveKeeps(s, key, quantity, idempotencyKey, entity);
    case ReleaseReservation(id) => ReleaseKeeps(s, id);
    case FulfillReservation(id) => FulfillKeeps(s, id);
    case CreateTransfer(source, destination, lines) => CreateKeeps(s, source, destination, lines);
    case ConfirmTransfer(id) => ConfirmKeeps(s, id);
    case CompleteTransfer(id) => CompleteKeeps(s, id);
  }

  lemma {:induction false} RunKeeps(s: Stock, commands: seq<Command>)
    requires Fits(s)
    ensures Fits(Run(s, commands))
    decreases |commands|
  {
    if commands != [] {
      ExecuteKeeps(s, commands[0]);
      RunKeeps(Execute(s, commands[0]).0, commands[1..]);
    }
  }

  /**
   In every reachable state each balance is within its bounds, what is reserved is what active reservations hold,
   and what is on hand is what receipts and issues have left.
   */
  lemma BalancesAlwaysFit(s: Stock, commands: seq<Command>, key: Key)
    requires Initial(s)
    ensures var balance, t := In(Run(s, commands).balances, key), Run(s, commands);
      && 0 <= balance.reserved <= balance.onHand
      && balance.reserved == ActiveQuantity(t.reservations, key)
      && balance.onHand == MovedQuantity(t.movements, key)
  {
    assert Fits(s);
    RunKeeps(s, commands);
    assert BalanceFits(Run(s, commands), key);
  }

  /** The last guard of release and fulfilment never fires: an active reservation is always covered. */
  lemma GuardsUnreachable(s: Stock, id: nat)
    requires Fits(s)
    ensures Releasing(s, id).1 != Refused(StockUnavailable)
    ensures Fulfilling(s, id).1 != Refused(StockUnavailable)
  {
    if id < |s.reservations| && s.reservations[id].status == Active {
      ActiveIsCounted(s.reservations, id);
      assert BalanceFits(s, s.reservations[id].key);
    }
  }

  // ----- conservation

  /** What enters or leaves the tenant's stock of an item when a command takes effect. */
  function Flow(s: Stock, command: Command, item: string): int {
    if Execute(s, command).0 == s then 0
    else match command
      case ReceiveStock(key, quantity, _) => if key.item == item then quantity else 0
      case AdjustStock(correction) => if correction.key.item == item then correction.adjustment else 0
      case FulfillReservation(id) =>
        if id < |s.reservations| && s.reservations[id].key.item == item then Minus(s.reservations[id].quantity) else 0
      case _ => 0
  }

  lemma ConfirmConserves(s: Stock, id: nat, item: string)
    requires Fits(s)
    ensures TotalStock(Confirming(s, id).0, item) == TotalStock(s, item)
  {
    if Confirming(s, id).0 != s {
      var t := s.transfers[id];
      assert TransferFits(s, t);
      TotalAfterLines(s.warehouses, s.balances, t.source, t.lines, true, item);
      TransitAfterUpdate(s.transfers, id, Confirmed, item);
    }
  }

  lemma CompleteConserves(s: Stock, id: nat, item: string)
    requires Fits(s)
    ensures TotalStock(Completing(s, id).0, item) == TotalStock(s, item)
  {
    if Completing(s, id).0 != s {
      var t := s.transfers[id];
      assert TransferFits(s, t);
      TotalAfterLines(s.warehouses, s.balances, t.destination, t.lines, false, item);
      TransitAfterUpdate(s.transfers, id, Completed, item);
    }
  }

  /** Every balance stands in a known warehouse. */
  ghost predicate BalancesLocated(s: Stock) {
    && (forall key | key in s.balances :: FindWarehouse(s.warehouses, key.warehouse).Some?)
  }

  lemma {:induction false} LinesLocated(balances: map<Key, Balance>, warehouse: string, lines: seq<TransferLine>, out: bool, key: Key)
    requires key in ShiftLines(balances, warehouse, lines, out)
    ensures key in balances || key.warehouse == warehouse
    decreases |lines|
  {
    if lines != [] {
      if key in ShiftLines(balances, warehouse, lines[..|lines| - 1], out) {
        LinesLocated(balances, warehouse, lines[..|lines| - 1], out, key);
      }
    }
  }

  lemma TransferLocated(s: Stock, id: nat)
    requires Fits(s) && BalancesLocated(s)
    ensures BalancesLocated(Confirming(s, id).0) && BalancesLocated(Completing(s, id).0)
  {
    if id < |s.transfers| {
      var t := s.transfers[id];
      assert TransferFits(s, t);
      forall key | key in Confirming(s, id).0.balances ensures FindWarehouse(s.warehouses, key.warehouse).Some? {
        if key !in s.balances { LinesLocated(s.balances, t.source, t.lines, true, key); }
      }
      forall key | key in Completing(s, id).0.balances ensures FindWarehouse(s.warehouses, key.warehouse).Some? {
        if key !in s.balances { LinesLocated(s.balances, t.destination, t.lines, false, key); }
      }
    }
  }

  lemma ExecuteLocated(s: Stock, command: Command)
    requires Fits(s) && BalancesLocated(s)
    ensures BalancesLocated(Execute(s, command).0) && Execute(s, command).0.warehouses == s.warehouses
  {
    if command.ConfirmTransfer? || command.CompleteTransfer? { TransferLocated(s, command.id); }
  }

  /** A balance update inside a known warehouse moves the item's total by what it puts on hand. */
  lemma ShiftTotal(s: Stock, t: Stock, key: Key, onHand: int, reserved: int, item: string)
    requires Fits(s) && FindWarehouse(s.warehouses, key.warehouse).Some?
    requires t.warehouses == s.warehouses && t.transfers == s.transfers && t.balances == Shift(s.balances, key, onHand, reserved)
    ensures TotalStock(t, item) == TotalStock(s, item) + (if key.item == item then onHand else 0)
  {
    TotalAfterShift(s.warehouses, s.balances, key, onHand, reserved, item);
  }

  lemma ReservationConserves(s: Stock, id: nat, item: string)
    requires Fits(s) && BalancesLocated(s)
    ensures TotalStock(Releasing(s, id).0, item) == TotalStock(s, item)
    ensures TotalStock(Fulfilling(s, id).0, item) == TotalStock(s, item) + Flow(s, FulfillReservation(id), item)
  {
    if Releasing(s, id).0 != s {
      ShiftTotal(s, Releasing(s, id).0, s.reservations[id].key, 0, Minus(s.reservations[id].quantity), item);
    }
    if Fulfilling(s, id).0 != s {
      var r := s.reservations[id];
      ShiftTotal(s, Fulfilling(s, id).0, r.key, Minus(r.quantity), Minus(r.quantity), item);
    }
  }

  /** A command changes an item's total, stock in transit included, by exactly its flow. */
  lemma StockIsConserved(s: Stock, command: Command, item: string)
    requires Fits(s) && BalancesLocated(s)
    ensures TotalStock(Execute(s, command).0, item) == TotalStock(s, item) + Flow(s, command, item)
  {
    var t := Execute(s, command).0;
    match command
    case ReceiveStock(key, quantity, _) => if t != s { ShiftTotal(s, t, key, quantity, 0, item); }
    case AdjustStock(correction) => if t != s { ShiftTotal(s, t, correction.key, correction.adjustment, 0, item); }
    case ReserveStock(key, quantity, _, _) => if t != s { ShiftTotal(s, t, key, 0, quantity, item); }
    case ReleaseReservation(id) => ReservationConserves(s, id, item);
    case FulfillReservation(id) => ReservationConserves(s, id, item);
    case CreateTransfer(_, _, _) => if t != s { TransitAfterAppend(s.transfers, t.transfers[|s.transfers|], item); }
    case ConfirmTransfer(id) => ConfirmConserves(s, id, item);
    case CompleteTransfer(id) => CompleteConserves(s, id, item);
  }

  /** All flows of a run. */
  function NetFlow(s: Stock, commands: seq<Command>, item: string): int
    decreases |commands|
  {
    if commands == [] then 0
    else Flow(s, commands[0], item) + NetFlow(Execute(s, commands[0]).0, commands[1..], item)
  }

  lemma {:induction false} RunConserves(s: Stock, commands: seq<Command>, item: string)
    requires Fits(s) && BalancesLocated(s)
    ensures TotalStock(Run(s, commands), item) == TotalStock(s, item) + NetFlow(s, commands, item)
    decreases |commands|
  {
    if commands != [] {
      StockIsConserved(s, commands[0], item);
      ExecuteKeeps(s, commands[0]);
      ExecuteLocated(s, commands[0]);
      RunConserves(Execute(s, commands[0]).0, commands[1..], item);
    }
  }
}
