/**
 What every inventory command means for the rows: exactly when it is refused and why, which balance it changes by how
 much, and that a repeated command under its key is answered by the first one, however much has happened in between.
 */
module StockEffects {
  import opened Wrappers
  import opened Inventory
  import opened InventoryInvariant

  // ----- the words of the statements

  ghost predicate KnownWarehouse(s: Stock, id: string) {
    exists w :: w in s.warehouses && w.id == id
  }

  ghost predicate KnownItem(s: Stock, id: string) {
    exists i :: i in s.items && i.id == id
  }

  /** The warehouse exists and belongs to the legal entity. */
  ghost predicate BelongsTo(s: Stock, warehouse: string, entity: string) {
    exists w :: w in s.warehouses && w.id == warehouse && w.legalEntityId == entity
  }

  ghost predicate DistinctItemIds(items: seq<Item>) {
    forall i, j | 0 <= i < j < |items| :: items[i].id != items[j].id
  }

  function OnHand(s: Stock, key: Key): int {
    if key in s.balances then s.balances[key].onHand else 0
  }

  function Held(s: Stock, key: Key): int {
    if key in s.balances then s.balances[key].reserved else 0
  }

  /** One balance moves by the amounts; every other balance is what it was. */
  ghost predicate BalanceMoves(s: Stock, t: Stock, key: Key, onHand: int, reserved: int) {
    && t.balances.Keys == s.balances.Keys + {key}
    && t.balances[key] == Balance(OnHand(s, key) + onHand, Held(s, key) + reserved)
    && forall k | k in s.balances && k != key :: t.balances[k] == s.balances[k]
  }

  /** Nothing but balances and movements differs, and the movements by one. */
  ghost predicate Moves(s: Stock, t: Stock, moved: Movement) {
    t == s.(balances := t.balances, reservations := t.reservations, movements := s.movements + [moved])
  }

  /** An earlier movement or reservation was made under the key. */
  ghost predicate CorrectedUnder(s: Stock, key: string, correction: Correction) {
    correction.idempotencyKey == key && exists m :: m in s.movements && m.correction == Some(correction)
  }

  ghost predicate ReservedUnder(s: Stock, key: Option<string>, id: nat) {
    key.Some? && id < |s.reservations| && s.reservations[id].idempotencyKey == key
  }

  /** Both idempotency keys are unique, as the tables demand. */
  ghost predicate KeysUnique(s: Stock) {
    && (forall c: Correction, d: Correction :: CorrectedUnder(s, c.idempotencyKey, c) && CorrectedUnder(s, c.idempotencyKey, d) ==> c == d)
    && (forall i, j | 0 <= i < |s.reservations| && 0 <= j < |s.reservations| && s.reservations[i].idempotencyKey.Some?
                      && s.reservations[i].idempotencyKey == s.reservations[j].idempotencyKey :: i == j)
  }

  // ----- receipts and corrections

  lemma TheWarehouse(s: Stock, id: string)
    requires DistinctWarehouses(s.warehouses)
    ensures KnownWarehouse(s, id) <==> FindWarehouse(s.warehouses, id).Some?
    ensures forall entity :: BelongsTo(s, id, entity) <==>
      FindWarehouse(s.warehouses, id).Some? && FindWarehouse(s.warehouses, id).value.legalEntityId == entity
  {
    forall w | w in s.warehouses && w.id == id && FindWarehouse(s.warehouses, id).Some?
      ensures w == FindWarehouse(s.warehouses, id).value
    {
      var i :| 0 <= i < |s.warehouses| && s.warehouses[i] == w;
      var j :| 0 <= j < |s.warehouses| && s.warehouses[j] == FindWarehouse(s.warehouses, id).value;
    }
  }

  lemma ReceivingMeans(s: Stock, key: Key, quantity: nat, entity: Option<string>)
    requires DistinctWarehouses(s.warehouses)
    ensures var (t, reply) := Execute(s, ReceiveStock(key, quantity, entity));
      var known := KnownWarehouse(s, key.warehouse) && KnownItem(s, key.item);
      && (reply == Refused(ReferenceNotFound) <==> !known)
      && (reply == Refused(LegalEntityMismatch) <==> known && entity.Some? && !BelongsTo(s, key.warehouse, entity.value))
      && (known && (entity.None? || BelongsTo(s, key.warehouse, entity.value)) ==>
            && BalanceMoves(s, t, key, quantity, 0) && reply == Stocked(t.balances[key])
            && Moves(s, t, Movement(key, quantity, Receipt, None)) && t.reservations == s.reservations)
      && (reply.Refused? ==> t == s)
  {
    TheWarehouse(s, key.warehouse);
    assert KnownItem(s, key.item) <==> FindItem(s.items, key.item).Some?;
  }

  /** The item is measured in this unit. */
  ghost predicate MeasuredIn(s: Stock, item: string, unit: string) {
    exists i :: i in s.items && i.id == item && i.unitOfMeasure == unit
  }

  lemma TheItem(s: Stock, id: string)
    requires DistinctItemIds(s.items)
    ensures KnownItem(s, id) <==> FindItem(s.items, id).Some?
    ensures forall unit :: MeasuredIn(s, id, unit) <==>
      FindItem(s.items, id).Some? && FindItem(s.items, id).value.unitOfMeasure == unit
  {
    forall i | i in s.items && i.id == id && FindItem(s.items, id).Some?
      ensures i == FindItem(s.items, id).value
    {
      var k :| 0 <= k < |s.items| && s.items[k] == i;
      var j :| 0 <= j < |s.items| && s.items[j] == FindItem(s.items, id).value;
    }
  }

  /** A correction under a new key. */
  lemma CorrectingMeans(s: Stock, c: Correction)
    requires DistinctWarehouses(s.warehouses) && DistinctItemIds(s.items)
    requires forall d :: !CorrectedUnder(s, c.idempotencyKey, d)
    ensures var (t, reply) := Execute(s, AdjustStock(c));
      var known := KnownWarehouse(s, c.key.warehouse) && KnownItem(s, c.key.item);
      var measured := MeasuredIn(s, c.key.item, c.unitOfMeasure);
      var covered := c.adjustment >= 0 || (c.key in s.balances && OnHand(s, c.key) + c.adjustment >= Held(s, c.key));
      && (reply == Refused(ReferenceNotFound) <==> !known)
      && (reply == Refused(UnitOfMeasureMismatch) <==> known && !measured)
      && (reply == Refused(StockUnavailable) <==> known && measured && !covered)
      && (known && measured && covered ==>
            && reply == Corrected(c) && BalanceMoves(s, t, c.key, c.adjustment, 0) && t.reservations == s.reservations
            && Moves(s, t, Movement(c.key, c.adjustment, if c.adjustment < 0 then Issue else Receipt, Some(c))))
      && (reply.Refused? ==> t == s)
  {
    TheWarehouse(s, c.key.warehouse);
    TheItem(s, c.key.item);
    var found := FindCorrection(s.movements, c.idempotencyKey);
    assert found.Some? ==> CorrectedUnder(s, c.idempotencyKey, found.value);
  }

  /** A correction under a key that was used: the same one is confirmed, another refused, and nothing changes. */
  lemma RepeatedCorrectionMeans(s: Stock, c: Correction, first: Correction)
    requires KeysUnique(s) && CorrectedUnder(s, c.idempotencyKey, first)
    ensures Execute(s, AdjustStock(c)) == (s, if c == first then Corrected(first) else Refused(IdempotencyConflict))
  {
    var found := FindCorrection(s.movements, c.idempotencyKey);
    var m :| m in s.movements && m.correction == Some(first);
    assert found.Some?;
    assert CorrectedUnder(s, first.idempotencyKey, found.value) && CorrectedUnder(s, first.idempotencyKey, first);
  }

  // ----- reservations

  /** A reservation under a new key, or under none. */
  lemma ReservingMeans(s: Stock, key: Key, quantity: nat, idempotencyKey: Option<string>, entity: Option<string>)
    requires DistinctWarehouses(s.warehouses) && forall i: nat :: !ReservedUnder(s, idempotencyKey, i)
    ensures var (t, reply) := Execute(s, ReserveStock(key, quantity, idempotencyKey, entity));
      var foreign := entity.Some? && !BelongsTo(s, key.warehouse, entity.value);
      var short := key !in s.balances || OnHand(s, key) - Held(s, key) < quantity;
      var made := Reservation(key, quantity, idempotencyKey, Active);
      && (reply == Refused(LegalEntityMismatch) <==> foreign)
      && (reply == Refused(StockUnavailable) <==> !foreign && short)
      && (!foreign && !short ==>
            && reply == Reserved(|s.reservations|, made) && t.reservations == s.reservations + [made]
            && BalanceMoves(s, t, key, 0, quantity) && Moves(s, t, Movement(key, quantity, Reserve, None)))
      && (reply.Refused? ==> t == s)
  {
    TheWarehouse(s, key.warehouse);
    var found := if idempotencyKey.Some? then FindReservation(s.reservations, idempotencyKey.value) else None;
    assert found.Some? ==> ReservedUnder(s, idempotencyKey, found.value);
  }

  /** A reservation under a key that was used: the same request is answered by the first one, another is refused. */
  lemma RepeatedReservationMeans(s: Stock, key: Key, quantity: nat, idempotencyKey: Option<string>, entity: Option<string>, id: nat)
    requires DistinctWarehouses(s.warehouses) && KeysUnique(s) && ReservedUnder(s, idempotencyKey, id)
    ensures var stored := s.reservations[id];
      Execute(s, ReserveStock(key, quantity, idempotencyKey, entity))
        == (s, if entity.Some? && !BelongsTo(s, key.warehouse, entity.value) then Refused(LegalEntityMismatch)
               else if stored.key == key && stored.quantity == quantity then Reserved(id, stored) else Refused(IdempotencyConflict))
  {
    TheWarehouse(s, key.warehouse);
    assert FindReservation(s.reservations, idempotencyKey.value) == Some(id);
  }

  /** What an active reservation held is free again, and the reservation is released; nothing else changes. */
  lemma ReleasingMeans(s: Stock, id: nat)
    requires Fits(s)
    ensures var (t, reply) := Execute(s, ReleaseReservation(id));
      && (reply == Refused(NotFound) <==> id >= |s.reservations|)
      && (id < |s.reservations| ==>
            var r := s.reservations[id];
            match r.status
            case Released => t == s && reply == Reserved(id, r)
            case Fulfilled => t == s && reply == Refused(InvalidState)
            case Active =>
              && t.reservations == s.reservations[id := Reservation(r.key, r.quantity, r.idempotencyKey, Released)]
              && reply == Reserved(id, t.reservations[id]) && BalanceMoves(s, t, r.key, 0, -(r.quantity as int))
              && Moves(s, t, Movement(r.key, -(r.quantity as int), Release, None)))
      && (reply.Refused? ==> t == s)
  {
    GuardsUnreachable(s, id);
  }

  /** What an active reservation held leaves the warehouse, and the reservation is fulfilled; nothing else changes. */
  lemma FulfillingMeans(s: Stock, id: nat)
    requires Fits(s)
    ensures var (t, reply) := Execute(s, FulfillReservation(id));
      && (reply == Refused(NotFound) <==> id >= |s.reservations|)
      && (id < |s.reservations| ==>
            var r := s.reservations[id];
            match r.status
            case Fulfilled => t == s && reply == Reserved(id, r)
            case Released => t == s && reply == Refused(InvalidState)
            case Active =>
              && t.reservations == s.reservations[id := Reservation(r.key, r.quantity, r.idempotencyKey, Fulfilled)]
              && reply == Reserved(id, t.reservations[id]) && BalanceMoves(s, t, r.key, -(r.quantity as int), -(r.quantity as int))
              && Moves(s, t, Movement(r.key, -(r.quantity as int), Issue, None)))
      && (reply.Refused? ==> t == s)
  {
    GuardsUnreachable(s, id);
  }

  // ----- transfers

  lemma CreatingTransferMeans(s: Stock, source: string, destination: string, lines: seq<TransferLine>)
    requires DistinctWarehouses(s.warehouses)
    ensures var (t, reply) := Execute(s, CreateTransfer(source, destination, lines));
      var repeated := exists i, j :: 0 <= i < j < |lines| && lines[i].item == lines[j].item;
      var known := KnownWarehouse(s, source) && KnownWarehouse(s, destination);
      var together := exists entity :: BelongsTo(s, source, entity) && BelongsTo(s, destination, entity);
      var listed := forall i | 0 <= i < |lines| :: KnownItem(s, lines[i].item);
      && (reply == Refused(SameWarehouse) <==> source == destination)
      && (reply == Refused(DuplicateItem) <==> source != destination && repeated)
      && (reply == Refused(DifferentLegalEntity) <==> source != destination && !repeated && known && !together)
      && (reply == Refused(ReferenceNotFound) <==> source != destination && !repeated && (!known || (together && !listed)))
      && (source != destination && !repeated && known && together && listed ==>
            exists entity :: BelongsTo(s, source, entity)
              && t == s.(transfers := s.transfers + [Transfer(source, destination, entity, Draft, lines)])
              && reply == Transferred(|s.transfers|, Transfer(source, destination, entity, Draft, lines)))
      && (reply.Refused? ==> t == s)
  {
    TheWarehouse(s, source);
    TheWarehouse(s, destination);
    assert forall i | 0 <= i < |lines| :: KnownItem(s, lines[i].item) <==> FindItem(s.items, lines[i].item).Some?;
    if KnownWarehouse(s, source) { assert BelongsTo(s, source, FindWarehouse(s.warehouses, source).value.legalEntityId); }
  }

  /** Every line moves the balance of its item in the warehouse; nothing else moves. */
  ghost predicate LinesMove(s: Stock, t: Stock, warehouse: string, lines: seq<TransferLine>, out: bool) {
    && (forall i | 0 <= i < |lines| :: LineMoves(s, t, Key(warehouse, lines[i].item), if out then -(lines[i].quantity as int) else lines[i].quantity))
    && (forall k: Key | k.warehouse != warehouse || forall i | 0 <= i < |lines| :: lines[i].item != k.item :: LineMoves(s, t, k, 0))
  }

  ghost predicate LineMoves(s: Stock, t: Stock, key: Key, onHand: int) {
    OnHand(t, key) == OnHand(s, key) + onHand && Held(t, key) == Held(s, key)
  }

  lemma ShiftedLinesMove(s: Stock, t: Stock, warehouse: string, lines: seq<TransferLine>, out: bool)
    requires DistinctItems(lines) && t.balances == ShiftLines(s.balances, warehouse, lines, out)
    ensures LinesMove(s, t, warehouse, lines, out)
  {
    forall i | 0 <= i < |lines|
      ensures LineMoves(s, t, Key(warehouse, lines[i].item), if out then -(lines[i].quantity as int) else lines[i].quantity)
    {
      OneLinePerItem(lines, i);
      BalanceAfterLines(s.balances, warehouse, lines, out, Key(warehouse, lines[i].item));
    }
    forall k: Key | k.warehouse != warehouse || forall i | 0 <= i < |lines| :: lines[i].item != k.item
      ensures LineMoves(s, t, k, 0)
    {
      BalanceAfterLines(s.balances, warehouse, lines, out, k);
      if k.warehouse == warehouse { NoLine(lines, k.item); }
    }
  }

  /** A line asks for more than is free in the warehouse. */
  ghost predicate Short(s: Stock, warehouse: string, line: TransferLine) {
    var key := Key(warehouse, line.item);
    key !in s.balances || OnHand(s, key) - Held(s, key) < line.quantity
  }

  /** The ledger of movements has gained one entry per line, in order: issues on the way out, receipts on the way in. */
  ghost predicate LinesRecorded(s: Stock, t: Stock, warehouse: string, lines: seq<TransferLine>, out: bool) {
    && |t.movements| == |s.movements| + |lines| && t.movements[..|s.movements|] == s.movements
    && forall i | 0 <= i < |lines| ::
         var sign := if out then -1 else 1;
         t.movements[|s.movements| + i]
           == Movement(Key(warehouse, lines[i].item), sign * lines[i].quantity, if out then Issue else Receipt, None)
  }

  lemma {:induction false} RecordedLines(warehouse: string, lines: seq<TransferLine>, out: bool)
    ensures var moved, sign := LineMovements(warehouse, lines, out), if out then -1 else 1;
      && |moved| == |lines|
      && forall i | 0 <= i < |lines| ::
           moved[i] == Movement(Key(warehouse, lines[i].item), sign * lines[i].quantity, if out then Issue else Receipt, None)
  {
    if lines != [] { RecordedLines(warehouse, lines[..|lines| - 1], out); }
  }

  lemma TransfersAreRecorded(s: Stock, id: nat)
    requires id < |s.transfers|
    ensures var x := s.transfers[id];
      && (Confirming(s, id).0 != s ==> LinesRecorded(s, Confirming(s, id).0, x.source, x.lines, true))
      && (Completing(s, id).0 != s ==> LinesRecorded(s, Completing(s, id).0, x.destination, x.lines, false))
  {
    var x := s.transfers[id];
    RecordedLines(x.source, x.lines, true);
    RecordedLines(x.destination, x.lines, false);
  }

  /** A draft whose lines are all available leaves its source; anything else is refused or left as it is. */
  lemma ConfirmingMeans(s: Stock, id: nat)
    requires Fits(s)
    ensures var (t, reply) := Execute(s, ConfirmTransfer(id));
      && (reply == Refused(NotFound) <==> id >= |s.transfers|)
      && (id < |s.transfers| ==>
            var x := s.transfers[id];
            var short := exists i :: 0 <= i < |x.lines| && Short(s, x.source, x.lines[i]);
            && (reply == Refused(StockUnavailable) <==> x.status == Draft && short)
            && (x.status != Draft ==> t == s && reply == Transferred(id, x))
            && (x.status == Draft && !short ==>
                  && t.transfers == s.transfers[id := Transfer(x.source, x.destination, x.legalEntityId, Confirmed, x.lines)]
                  && reply == Transferred(id, t.transfers[id]) && LinesMove(s, t, x.source, x.lines, true)
                  && t.reservations == s.reservations))
      && (reply.Refused? ==> t == s)
  {
    if id < |s.transfers| {
      var x, t := s.transfers[id], Confirming(s, id).0;
      assert TransferFits(s, x);
      assert forall i | 0 <= i < |x.lines| :: Short(s, x.source, x.lines[i]) <==> !Available(s.balances, x.source, x.lines[i]);
      if t.balances == ShiftLines(s.balances, x.source, x.lines, true) { ShiftedLinesMove(s, t, x.source, x.lines, true); }
    }
  }

  /** A confirmed transfer arrives at its destination. */
  lemma CompletingMeans(s: Stock, id: nat)
    requires Fits(s)
    ensures var (t, reply) := Execute(s, CompleteTransfer(id));
      && (reply == Refused(NotFound) <==> id >= |s.transfers|)
      && (id < |s.transfers| ==>
            var x := s.transfers[id];
            match x.status
            case Draft => t == s && reply == Refused(InvalidState)
            case Completed => t == s && reply == Transferred(id, x)
            case Confirmed =>
              && t.transfers == s.transfers[id := Transfer(x.source, x.destination, x.legalEntityId, Completed, x.lines)]
              && reply == Transferred(id, t.transfers[id]) && LinesMove(s, t, x.destination, x.lines, false)
              && t.reservations == s.reservations)
  {
    if id < |s.transfers| {
      var x, t := s.transfers[id], Completing(s, id).0;
      assert TransferFits(s, x);
      if x.status == Confirmed { ShiftedLinesMove(s, t, x.destination, x.lines, false); }
    }
  }

  // ----- repeats, however much later

  /** What no command changes: warehouses and items, and of every reservation all but its status. */
  ghost predicate Continues(s: Stock, t: Stock) {
    && t.warehouses == s.warehouses && t.items == s.items
    && |s.reservations| <= |t.reservations|
    && (forall i | 0 <= i < |s.reservations| :: SameRequest(s.reservations[i], t.reservations[i]))
    && s.movements <= t.movements
  }

  predicate SameRequest(first: Reservation, later: Reservation) {
    later.key == first.key && later.quantity == first.quantity && later.idempotencyKey == first.idempotencyKey
  }

  /** At most one reservation and one correction is added, under a key that was free. */
  ghost predicate AddsFreshKeys(s: Stock, t: Stock) {
    && (t.reservations == s.reservations
        || (|t.reservations| == |s.reservations| && forall i | 0 <= i < |s.reservations| :: SameRequest(s.reservations[i], t.reservations[i]))
        || (|t.reservations| == |s.reservations| + 1 && t.reservations[..|s.reservations|] == s.reservations
            && forall i: nat :: !ReservedUnder(s, t.reservations[|s.reservations|].idempotencyKey, i)))
    && (forall c: Correction :: CorrectedUnder(t, c.idempotencyKey, c) && !CorrectedUnder(s, c.idempotencyKey, c) ==>
          forall d :: CorrectedUnder(t, c.idempotencyKey, d) ==> d == c)
  }

  lemma CorrectionsAfter(s: Stock, t: Stock, added: seq<Movement>)
    requires t.movements == s.movements + added
    ensures forall key, c :: CorrectedUnder(t, key, c) <==>
      CorrectedUnder(s, key, c) || (c.idempotencyKey == key && exists m :: m in added && m.correction == Some(c))
  {
    assert forall m :: m in t.movements <==> m in s.movements || m in added;
  }

  lemma {:induction false} LinesCorrectNothing(warehouse: string, lines: seq<TransferLine>, out: bool)
    ensures forall m | m in LineMovements(warehouse, lines, out) :: m.correction.None?
  {
    if lines != [] { LinesCorrectNothing(warehouse, lines[..|lines| - 1], out); }
  }

  lemma PlainMovementAdds(s: Stock, t: Stock, added: seq<Movement>)
    requires t.movements == s.movements + added && forall m | m in added :: m.correction.None?
    ensures forall key, c :: CorrectedUnder(t, key, c) <==> CorrectedUnder(s, key, c)
  {
    CorrectionsAfter(s, t, added);
  }

  lemma CorrectingAdds(s: Stock, c: Correction)
    ensures AddsFreshKeys(s, Adjust(s, c).0) && Continues(s, Adjust(s, c).0)
  {
    var t := Adjust(s, c).0;
    if t != s {
      var added := [Movement(c.key, c.adjustment, if c.adjustment < 0 then Issue else Receipt, Some(c))];
      CorrectionsAfter(s, t, added);
      assert FindCorrection(s.movements, c.idempotencyKey).None?;
      assert forall d :: !CorrectedUnder(s, c.idempotencyKey, d);
    }
  }

  lemma ReservingAdds(s: Stock, key: Key, quantity: nat, idempotencyKey: Option<string>, entity: Option<string>)
    ensures AddsFreshKeys(s, Reserving(s, key, quantity, idempotencyKey, entity).0)
    ensures Continues(s, Reserving(s, key, quantity, idempotencyKey, entity).0)
  {
    var t := Reserving(s, key, quantity, idempotencyKey, entity).0;
    if t != s { PlainMovementAdds(s, t, [Movement(key, quantity, Reserve, None)]); }
  }

  lemma StatusAdds(s: Stock, id: nat)
    ensures AddsFreshKeys(s, Releasing(s, id).0) && Continues(s, Releasing(s, id).0)
    ensures AddsFreshKeys(s, Fulfilling(s, id).0) && Continues(s, Fulfilling(s, id).0)
  {
    if id < |s.reservations| {
      var r := s.reservations[id];
      if Releasing(s, id).0 != s { PlainMovementAdds(s, Releasing(s, id).0, [Movement(r.key, Minus(r.quantity), Release, None)]); }
      if Fulfilling(s, id).0 != s { PlainMovementAdds(s, Fulfilling(s, id).0, [Movement(r.key, Minus(r.quantity), Issue, None)]); }
    }
  }

  lemma TransferAdds(s: Stock, id: nat)
    ensures AddsFreshKeys(s, Confirming(s, id).0) && Continues(s, Confirming(s, id).0)
    ensures AddsFreshKeys(s, Completing(s, id).0) && Continues(s, Completing(s, id).0)
  {
    if id < |s.transfers| {
      var x := s.transfers[id];
      LinesCorrectNothing(x.source, x.lines, true);
      LinesCorrectNothing(x.destination, x.lines, false);
      if Confirming(s, id).0 != s { PlainMovementAdds(s, Confirming(s, id).0, LineMovements(x.source, x.lines, true)); }
      if Completing(s, id).0 != s { PlainMovementAdds(s, Completing(s, id).0, LineMovements(x.destination, x.lines, false)); }
    }
  }

  lemma ExecuteAdds(s: Stock, command: Command)
    ensures AddsFreshKeys(s, Execute(s, command).0) && Continues(s, Execute(s, command).0)
  {
    match command
    case AdjustStock(correction) => CorrectingAdds(s, correction);
    case ReserveStock(key, quantity, idempotencyKey, entity) => ReservingAdds(s, key, quantity, idempotencyKey, entity);
    case ReleaseReservation(id) => StatusAdds(s, id);
    case FulfillReservation(id) => StatusAdds(s, id);
    case ConfirmTransfer(id) => TransferAdds(s, id);
    case CompleteTransfer(id) => TransferAdds(s, id);
    case ReceiveStock(key, quantity, entity) =>
      var t := Receive(s, key, quantity, entity).0;
      if t != s { PlainMovementAdds(s, t, [Movement(key, quantity, Receipt, None)]); }
    case CreateTransfer(_, _, _) =>
  }

  lemma FreshKeysStayUnique(s: Stock, t: Stock)
    requires KeysUnique(s) && AddsFreshKeys(s, t)
    ensures KeysUnique(t)
  {
    var n := |s.reservations|;
    if |t.reservations| == n + 1 {
      forall i | 0 <= i < n && t.reservations[n].idempotencyKey.Some?
        ensures t.reservations[i].idempotencyKey != t.reservations[n].idempotencyKey
      {
        NewKeyIsFree(s, t, i);
      }
    } else {
      assert forall i | 0 <= i < n :: t.reservations[i].idempotencyKey == s.reservations[i].idempotencyKey;
    }
  }

  lemma NewKeyIsFree(s: Stock, t: Stock, i: nat)
    requires |t.reservations| == |s.reservations| + 1 && t.reservations[..|s.reservations|] == s.reservations && i < |s.reservations|
    requires t.reservations[|s.reservations|].idempotencyKey.Some?
    requires !ReservedUnder(s, t.reservations[|s.reservations|].idempotencyKey, i)
    ensures t.reservations[i].idempotencyKey != t.reservations[|s.reservations|].idempotencyKey
  {
    assert t.reservations[i] == t.reservations[..|s.reservations|][i];
  }

  /** Both keys stay unique, and what was recorded stays recorded, over every run. */
  lemma {:induction false} RunContinues(s: Stock, commands: seq<Command>)
    requires KeysUnique(s)
    ensures KeysUnique(Run(s, commands)) && Continues(s, Run(s, commands))
    decreases |commands|
  {
    if commands != [] {
      var t := Execute(s, commands[0]).0;
      ExecuteAdds(s, commands[0]);
      FreshKeysStayUnique(s, t);
      RunContinues(t, commands[1..]);
      ContinuesTransitive(s, t, Run(t, commands[1..]));
    }
  }

  lemma ContinuesTransitive(s: Stock, t: Stock, u: Stock)
    requires Continues(s, t) && Continues(t, u)
    ensures Continues(s, u)
  {
    forall i | 0 <= i < |s.reservations| ensures SameRequest(s.reservations[i], u.reservations[i]) {
      assert SameRequest(s.reservations[i], t.reservations[i]) && SameRequest(t.reservations[i], u.reservations[i]);
    }
  }

  /**
   A reservation that was made under a key is what every later request under that key is answered with, whatever
   commands have run since; the same request changes nothing, a different one is refused.
   */
  lemma ReservationAnswersRepeats(s: Stock, commands: seq<Command>, id: nat, key: Key, quantity: nat, idempotencyKey: Option<string>)
    requires DistinctWarehouses(s.warehouses) && KeysUnique(s) && ReservedUnder(s, idempotencyKey, id)
    ensures var t := Run(s, commands);
      && id < |t.reservations| && SameRequest(s.reservations[id], t.reservations[id])
      && Execute(t, ReserveStock(key, quantity, idempotencyKey, None))
           == (t, if s.reservations[id].key == key && s.reservations[id].quantity == quantity then Reserved(id, t.reservations[id])
                  else Refused(IdempotencyConflict))
  {
    RunContinues(s, commands);
    var t := Run(s, commands);
    assert SameRequest(s.reservations[id], t.reservations[id]);
    RepeatedReservationMeans(t, key, quantity, idempotencyKey, None, id);
  }

  /** The same for corrections. */
  lemma CorrectionAnswersRepeats(s: Stock, commands: seq<Command>, first: Correction, c: Correction)
    requires KeysUnique(s) && CorrectedUnder(s, c.idempotencyKey, first)
    ensures var t := Run(s, commands);
      Execute(t, AdjustStock(c)) == (t, if c == first then Corrected(first) else Refused(IdempotencyConflict))
  {
    RunContinues(s, commands);
    var t := Run(s, commands);
    assert CorrectedUnder(t, c.idempotencyKey, first);
    RepeatedCorrectionMeans(t, c, first);
  }
}
