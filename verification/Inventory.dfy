/**
 The stock of one tenant: balances per warehouse and item, reservations, movements and two-phase transfers, and
 what each command does to them in one transaction.
 */
module Inventory {
  import opened Wrappers

  datatype Warehouse = Warehouse(id: string, legalEntityId: string)

  datatype Item = Item(id: string, unitOfMeasure: string)

  datatype Key = Key(warehouse: string, item: string)

  datatype Balance = Balance(onHand: int, reserved: int)

  datatype ReservationStatus = Active | Released | Fulfilled

  datatype Reservation = Reservation(key: Key, quantity: nat, idempotencyKey: Option<string>, status: ReservationStatus)

  datatype MovementKind = Receipt | Issue | Reserve | Release

  datatype Correction = Correction(key: Key, adjustment: int, unitOfMeasure: string, reason: string, idempotencyKey: string)

  datatype Movement = Movement(key: Key, quantity: int, kind: MovementKind, correction: Option<Correction>)

  datatype TransferStatus = Draft | Confirmed | Completed

  datatype TransferLine = TransferLine(item: string, quantity: nat)

  datatype Transfer = Transfer(source: string, destination: string, legalEntityId: string, status: TransferStatus,
                               lines: seq<TransferLine>)

  /** Reservations and transfers are identified by their place. */
  datatype Stock = Stock(warehouses: seq<Warehouse>, items: seq<Item>, balances: map<Key, Balance>,
                         reservations: seq<Reservation>, movements: seq<Movement>, transfers: seq<Transfer>)

  datatype StockError =
    | ReferenceNotFound
    | LegalEntityMismatch
    | IdempotencyConflict
    | UnitOfMeasureMismatch
    | StockUnavailable
    | NotFound
    | InvalidState
    | SameWarehouse
    | DuplicateItem
    | DifferentLegalEntity

  datatype Reply =
    | Stocked(balance: Balance)
    | Corrected(correction: Correction)
    | Reserved(id: nat, reservation: Reservation)
    | Transferred(id: nat, transfer: Transfer)
    | Refused(error: StockError)

  datatype Command =
    | ReceiveStock(key: Key, quantity: nat, legalEntityId: Option<string>)
    | AdjustStock(correction: Correction)
    | ReserveStock(key: Key, quantity: nat, idempotencyKey: Option<string>, legalEntityId: Option<string>)
    | ReleaseReservation(id: nat)
    | FulfillReservation(id: nat)
    | CreateTransfer(source: string, destination: string, lines: seq<TransferLine>)
    | ConfirmTransfer(id: nat)
    | CompleteTransfer(id: nat)

  /** Quantities are positive and adjustments are not zero; the decoder admits nothing else. */
  predicate Decodable(command: Command) {
    match command
    case ReceiveStock(_, quantity, _) => quantity > 0
    case AdjustStock(correction) => correction.adjustment != 0
    case ReserveStock(_, quantity, _, _) => quantity > 0
    case CreateTransfer(_, _, lines) => forall i | 0 <= i < |lines| :: lines[i].quantity > 0
    case _ => true
  }

  // ----- reading

  function FindWarehouse(warehouses: seq<Warehouse>, id: string): (found: Option<Warehouse>)
    ensures found.Some? ==> found.value in warehouses && found.value.id == id
    ensures found.None? ==> forall w | w in warehouses :: w.id != id
  {
    if warehouses == [] then None
    else if warehouses[0].id == id then Some(warehouses[0]) else FindWarehouse(warehouses[1..], id)
  }

  function FindItem(items: seq<Item>, id: string): (found: Option<Item>)
    ensures found.Some? ==> found.value in items && found.value.id == id
    ensures found.None? ==> forall i | i in items :: i.id != id
  {
    if items == [] then None else if items[0].id == id then Some(items[0]) else FindItem(items[1..], id)
  }

  function In(balances: map<Key, Balance>, key: Key): Balance {
    if key in balances then balances[key] else Balance(0, 0)
  }

  /** The correction recorded under an idempotency key. */
  function FindCorrection(movements: seq<Movement>, key: string): (found: Option<Correction>)
    ensures found.Some? ==> found.value.idempotencyKey == key && exists m :: m in movements && m.correction == found
    ensures found.None? ==> forall m | m in movements && m.correction.Some? :: m.correction.value.idempotencyKey != key
  {
    if movements == [] then None
    else if movements[0].correction.Some? && movements[0].correction.value.idempotencyKey == key then movements[0].correction
    else FindCorrection(movements[1..], key)
  }

  /** The reservation made under an idempotency key. */
  function FindReservation(reservations: seq<Reservation>, key: string): (found: Option<nat>)
    ensures found.Some? ==> found.value < |reservations| && reservations[found.value].idempotencyKey == Some(key)
    ensures found.None? ==> forall i | 0 <= i < |reservations| :: reservations[i].idempotencyKey != Some(key)
  {
    if reservations == [] then None
    else if reservations[|reservations| - 1].idempotencyKey == Some(key) then Some(|reservations| - 1)
    else FindReservation(reservations[..|reservations| - 1], key)
  }

  // ----- the commands

  function Minus(quantity: nat): int {
    -(quantity as int)
  }

  function Shift(balances: map<Key, Balance>, key: Key, onHand: int, reserved: int): map<Key, Balance> {
    balances[key := Balance(In(balances, key).onHand + onHand, In(balances, key).reserved + reserved)]
  }

  function Receive(s: Stock, key: Key, quantity: nat, legalEntityId: Option<string>): (Stock, Reply) {
    var warehouse := FindWarehouse(s.warehouses, key.warehouse);
    if warehouse.None? || FindItem(s.items, key.item).None? then (s, Refused(ReferenceNotFound))
    else if legalEntityId.Some? && warehouse.value.legalEntityId != legalEntityId.value then (s, Refused(LegalEntityMismatch))
    else
      var balances := Shift(s.balances, key, quantity, 0);
      (s.(balances := balances, movements := s.movements + [Movement(key, quantity, Receipt, None)]), Stocked(balances[key]))
  }

  function Adjust(s: Stock, correction: Correction): (Stock, Reply) {
    var key, adjustment := correction.key, correction.adjustment;
    var existing := FindCorrection(s.movements, correction.idempotencyKey);
    if existing.Some? then (s, if existing.value == correction then Corrected(correction) else Refused(IdempotencyConflict))
    else
      var item := FindItem(s.items, key.item);
      if item.None? || FindWarehouse(s.warehouses, key.warehouse).None? then (s, Refused(ReferenceNotFound))
      else if item.value.unitOfMeasure != correction.unitOfMeasure then (s, Refused(UnitOfMeasureMismatch))
      else if adjustment < 0 && (key !in s.balances || s.balances[key].onHand + adjustment < s.balances[key].reserved)
      then (s, Refused(StockUnavailable))
      else
        (s.(balances := Shift(s.balances, key, adjustment, 0),
            movements := s.movements + [Movement(key, adjustment, if adjustment < 0 then Issue else Receipt, Some(correction))]),
         Corrected(correction))
  }

  function Reserving(s: Stock, key: Key, quantity: nat, idempotencyKey: Option<string>, legalEntityId: Option<string>): (Stock, Reply) {
    var warehouse := FindWarehouse(s.warehouses, key.warehouse);
    var existing := if idempotencyKey.Some? then FindReservation(s.reservations, idempotencyKey.value) else None;
    if legalEntityId.Some? && (warehouse.None? || warehouse.value.legalEntityId != legalEntityId.value)
    then (s, Refused(LegalEntityMismatch))
    else if existing.Some? then
      var stored := s.reservations[existing.value];
      (s, if stored.key == key && stored.quantity == quantity then Reserved(existing.value, stored) else Refused(IdempotencyConflict))
    else if key !in s.balances || s.balances[key].onHand - s.balances[key].reserved < quantity
    then (s, Refused(StockUnavailable))
    else
      var reservation := Reservation(key, quantity, idempotencyKey, Active);
      (s.(balances := Shift(s.balances, key, 0, quantity), reservations := s.reservations + [reservation],
          movements := s.movements + [Movement(key, quantity, Reserve, None)]),
       Reserved(|s.reservations|, reservation))
  }

  function Releasing(s: Stock, id: nat): (Stock, Reply) {
    if id >= |s.reservations| then (s, Refused(NotFound))
    else
      var r := s.reservations[id];
      if r.status == Released then (s, Reserved(id, r))
      else if r.status != Active then (s, Refused(InvalidState))
      else if r.key !in s.balances || s.balances[r.key].reserved < r.quantity then (s, Refused(StockUnavailable))
      else
        var released := r.(status := Released);
        (s.(balances := Shift(s.balances, r.key, 0, Minus(r.quantity)), reservations := s.reservations[id := released],
            movements := s.movements + [Movement(r.key, Minus(r.quantity), Release, None)]),
         Reserved(id, released))
  }

  function Fulfilling(s: Stock, id: nat): (Stock, Reply) {
    if id >= |s.reservations| then (s, Refused(NotFound))
    else
      var r := s.reservations[id];
      if r.status == Fulfilled then (s, Reserved(id, r))
      else if r.status != Active then (s, Refused(InvalidState))
      else if r.key !in s.balances || s.balances[r.key].onHand < r.quantity || s.balances[r.key].reserved < r.quantity
      then (s, Refused(StockUnavailable))
      else
        var fulfilled := r.(status := Fulfilled);
        (s.(balances := Shift(s.balances, r.key, Minus(r.quantity), Minus(r.quantity)), reservations := s.reservations[id := fulfilled],
            movements := s.movements + [Movement(r.key, Minus(r.quantity), Issue, None)]),
         Reserved(id, fulfilled))
  }

  predicate DistinctItems(lines: seq<TransferLine>) {
    forall i, j | 0 <= i < j < |lines| :: lines[i].item != lines[j].item
  }

  function CreatingTransfer(s: Stock, source: string, destination: string, lines: seq<TransferLine>): (Stock, Reply) {
    var from, to := FindWarehouse(s.warehouses, source), FindWarehouse(s.warehouses, destination);
    if source == destination then (s, Refused(SameWarehouse))
    else if !DistinctItems(lines) then (s, Refused(DuplicateItem))
    else if from.None? || to.None? then (s, Refused(ReferenceNotFound))
    else if from.value.legalEntityId != to.value.legalEntityId then (s, Refused(DifferentLegalEntity))
    else if exists i | 0 <= i < |lines| :: FindItem(s.items, lines[i].item).None? then (s, Refused(ReferenceNotFound))
    else
      var transfer := Transfer(source, destination, from.value.legalEntityId, Draft, lines);
      (s.(transfers := s.transfers + [transfer]), Transferred(|s.transfers|, transfer))
  }

  /** Every line leaves its warehouse, or arrives in it. */
  function ShiftLines(balances: map<Key, Balance>, warehouse: string, lines: seq<TransferLine>, out: bool)
    : (shifted: map<Key, Balance>)
    ensures balances.Keys <= shifted.Keys
  {
    if lines == [] then balances
    else
      var before := ShiftLines(balances, warehouse, lines[..|lines| - 1], out);
      var last := lines[|lines| - 1];
      Shift(before, Key(warehouse, last.item), if out then Minus(last.quantity) else last.quantity, 0)
  }

  function LineMovement(warehouse: string, line: TransferLine, out: bool): Movement {
    Movement(Key(warehouse, line.item), if out then Minus(line.quantity) else line.quantity, if out then Issue else Receipt, None)
  }

  function LineMovements(warehouse: string, lines: seq<TransferLine>, out: bool): seq<Movement> {
    if lines == [] then []
    else LineMovements(warehouse, lines[..|lines| - 1], out) + [LineMovement(warehouse, lines[|lines| - 1], out)]
  }

  predicate Available(balances: map<Key, Balance>, warehouse: string, line: TransferLine) {
    var key := Key(warehouse, line.item);
    key in balances && balances[key].onHand - balances[key].reserved >= line.quantity
  }

  function Confirming(s: Stock, id: nat): (Stock, Reply) {
    if id >= |s.transfers| then (s, Refused(NotFound))
    else
      var t := s.transfers[id];
      if t.status != Draft then (s, Transferred(id, t))
      else if exists i | 0 <= i < |t.lines| :: !Available(s.balances, t.source, t.lines[i]) then (s, Refused(StockUnavailable))
      else
        var confirmed := t.(status := Confirmed);
        (s.(balances := ShiftLines(s.balances, t.source, t.lines, true), transfers := s.transfers[id := confirmed],
            movements := s.movements + LineMovements(t.source, t.lines, true)),
         Transferred(id, confirmed))
  }

  function Completing(s: Stock, id: nat): (Stock, Reply) {
    if id >= |s.transfers| then (s, Refused(NotFound))
    else
      var t := s.transfers[id];
      if t.status == Completed then (s, Transferred(id, t))
      else if t.status != Confirmed then (s, Refused(InvalidState))
      else
        var completed := t.(status := Completed);
        (s.(balances := ShiftLines(s.balances, t.destination, t.lines, false), transfers := s.transfers[id := completed],
            movements := s.movements + LineMovements(t.destination, t.lines, false)),
         Transferred(id, completed))
  }

  function Execute(s: Stock, command: Command): (Stock, Reply) {
    match command
    case ReceiveStock(key, quantity, entity) => Receive(s, key, quantity, entity)
    case AdjustStock(correction) => Adjust(s, correction)
    case ReserveStock(key, quantity, idempotencyKey, entity) => Reserving(s, key, quantity, idempotencyKey, entity)
    case ReleaseReservation(id) => Releasing(s, id)
    case FulfillReservation(id) => Fulfilling(s, id)
    case CreateTransfer(source, destination, lines) => CreatingTransfer(s, source, destination, lines)
    case ConfirmTransfer(id) => Confirming(s, id)
    case CompleteTransfer(id) => Completing(s, id)
  }

  function Run(s: Stock, commands: seq<Command>): Stock
    decreases |commands|
  {
    if commands == [] then s else Run(Execute(s, commands[0]).0, commands[1..])
  }
}
