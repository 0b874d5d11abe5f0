/**
 The inventory tables, changed in place by the commands, one transaction each.
 */
module InventoryStore {
  import opened Wrappers
  import opened Inventory
  import opened InventoryInvariant

  class InventoryTables {
    var warehouses: seq<Warehouse>
    var items: seq<Item>
    var balances: map<Key, Balance>
    var reservations: seq<Reservation>
    var movements: seq<Movement>
    var transfers: seq<Transfer>

    function Contents(): Stock
      reads this
    {
      Stock(warehouses, items, balances, reservations, movements, transfers)
    }

    constructor (warehouses: seq<Warehouse>, items: seq<Item>)
      requires DistinctWarehouses(warehouses)
      ensures Initial(Contents()) && Fits(Contents()) && this.warehouses == warehouses && this.items == items
    {
      this.warehouses, this.items := warehouses, items;
      balances, reservations, movements, transfers := map[], [], [], [];
    }

    /** Inserts a balance or adds to the stored one. */
    method Upsert(key: Key, onHand: int, reserved: int)
      modifies this`balances
      ensures balances == Shift(old(balances), key, onHand, reserved)
    {
      if key in balances {
        balances := balances[key := Balance(balances[key].onHand + onHand, balances[key].reserved + reserved)];
      } else {
        balances := balances[key := Balance(onHand, reserved)];
      }
    }

    method ReceiveStock(key: Key, quantity: nat, legalEntityId: Option<string>) returns (reply: Reply)
      modifies this`balances, this`movements
      ensures (Contents(), reply) == Receive(old(Contents()), key, quantity, legalEntityId)
      ensures old(Fits(Contents())) ==> Fits(Contents())
    {
      if Fits(Contents()) { ReceiveKeeps(Contents(), key, quantity, legalEntityId); }
      var warehouse := FindWarehouse(warehouses, key.warehouse);
      var item := FindItem(items, key.item);
      if warehouse.None? || item.None? { return Refused(ReferenceNotFound); }
      if legalEntityId.Some? && warehouse.value.legalEntityId != legalEntityId.value { return Refused(LegalEntityMismatch); }
      Upsert(key, quantity, 0);
      movements := movements + [Movement(key, quantity, Receipt, None)];
      return Stocked(balances[key]);
    }

    method AdjustStock(correction: Correction) returns (reply: Reply)
      modifies this`balances, this`movements
      ensures (Contents(), reply) == Adjust(old(Contents()), correction)
      ensures old(Fits(Contents())) ==> Fits(Contents())
    {
      if Fits(Contents()) { AdjustKeeps(Contents(), correction); }
      var key, adjustment := correction.key, correction.adjustment;
      var existing := FindCorrection(movements, correction.idempotencyKey);
      if existing.Some? {
        return if existing.value == correction then Corrected(existing.value) else Refused(IdempotencyConflict);
      }
      var item := FindItem(items, key.item);
      if item.None? || FindWarehouse(warehouses, key.warehouse).None? { return Refused(ReferenceNotFound); }
      if item.value.unitOfMeasure != correction.unitOfMeasure { return Refused(UnitOfMeasureMismatch); }
      if adjustment < 0 {
        if key !in balances || balances[key].onHand + adjustment < balances[key].reserved { return Refused(StockUnavailable); }
        balances := balances[key := Balance(balances[key].onHand + adjustment, balances[key].reserved)];
      } else {
        Upsert(key, adjustment, 0);
      }
      movements := movements + [Movement(key, adjustment, if adjustment < 0 then Issue else Receipt, Some(correction))];
      return Corrected(correction);
    }

    method ReserveStock(key: Key, quantity: nat, idempotencyKey: Option<string>, legalEntityId: Option<string>)
      returns (reply: Reply)
      modifies this`balances, this`reservations, this`movements
      ensures (Contents(), reply) == Reserving(old(Contents()), key, quantity, idempotencyKey, legalEntityId)
      ensures old(Fits(Contents())) ==> Fits(Contents())
    {
      if Fits(Contents()) { ReserveKeeps(Contents(), key, quantity, idempotencyKey, legalEntityId); }
      if legalEntityId.Some? {
        var warehouse := FindWarehouse(warehouses, key.warehouse);
        if warehouse.None? || warehouse.value.legalEntityId != legalEntityId.value { return Refused(LegalEntityMismatch); }
      }
      if idempotencyKey.Some? {
        var existing := FindReservation(reservations, idempotencyKey.value);
        if existing.Some? {
          var stored := reservations[existing.value];
          if stored.key != key || stored.quantity != quantity { return Refused(IdempotencyConflict); }
          return Reserved(existing.value, stored);
        }
      }
      if key !in balances || balances[key].onHand - balances[key].reserved < quantity { return Refused(StockUnavailable); }
      balances := balances[key := Balance(balances[key].onHand, balances[key].reserved + quantity)];
      var reservation := Reservation(key, quantity, idempotencyKey, Active);
      reply := Reserved(|reservations|, reservation);
      reservations := reservations + [reservation];
      movements := movements + [Movement(key, quantity, Reserve, None)];
    }

    method ReleaseReservation(id: nat) returns (reply: Reply)
      modifies this`balances, this`reservations, this`movements
      ensures (Contents(), reply) == Releasing(old(Contents()), id)
      ensures old(Fits(Contents())) ==> Fits(Contents())
    {
      if Fits(Contents()) { ReleaseKeeps(Contents(), id); }
      if id >= |reservations| { return Refused(NotFound); }
      var reservation := reservations[id];
      if reservation.status == Released { return Reserved(id, reservation); }
      if reservation.status != Active { return Refused(InvalidState); }
      var key, quantity := reservation.key, reservation.quantity;
      if key !in balances || balances[key].reserved < quantity { return Refused(StockUnavailable); }
      balances := balances[key := Balance(balances[key].onHand, balances[key].reserved - quantity)];
      reservations := reservations[id := reservation.(status := Released)];
      movements := movements + [Movement(key, Minus(quantity), Release, None)];
      return Reserved(id, reservations[id]);
    }

    method FulfillReservation(id: nat) returns (reply: Reply)
      modifies this`balances, this`reservations, this`movements
      ensures (Contents(), reply) == Fulfilling(old(Contents()), id)
      ensures old(Fits(Contents())) ==> Fits(Contents())
    {
      if Fits(Contents()) { FulfillKeeps(Contents(), id); }
      if id >= |reservations| { return Refused(NotFound); }
      var reservation := reservations[id];
      if reservation.status == Fulfilled { return Reserved(id, reservation); }
      if reservation.status != Active { return Refused(InvalidState); }
      var key, quantity := reservation.key, reservation.quantity;
      if key !in balances || balances[key].onHand < quantity || balances[key].reserved < quantity {
        return Refused(StockUnavailable);
      }
      balances := balances[key := Balance(balances[key].onHand - quantity, balances[key].reserved - quantity)];
      reservations := reservations[id := reservation.(status := Fulfilled)];
      movements := movements + [Movement(key, Minus(quantity), Issue, None)];
      return Reserved(id, reservations[id]);
    }

    /** No item twice. */
    static method CheckDistinct(lines: seq<TransferLine>) returns (distinct: bool)
      ensures distinct <==> DistinctItems(lines)
    {
      var itemIds: set<string> := {};
      for i := 0 to |lines|
        invariant itemIds == set k | 0 <= k < i :: lines[k].item
        invariant DistinctItems(lines[..i])
      {
        if lines[i].item in itemIds {
          var k :| 0 <= k < i && lines[k].item == lines[i].item;
          return false;
        }
        itemIds := itemIds + {lines[i].item};
      }
      assert lines[..|lines|] == lines;
      return true;
    }

    method CreateTransfer(source: string, destination: string, lines: seq<TransferLine>) returns (reply: Reply)
      modifies this`transfers
      ensures (Contents(), reply) == CreatingTransfer(old(Contents()), source, destination, lines)
      ensures old(Fits(Contents())) ==> Fits(Contents())
    {
      if Fits(Contents()) { CreateKeeps(Contents(), source, destination, lines); }
      if source == destination { return Refused(SameWarehouse); }
      var distinct := CheckDistinct(lines);
      if !distinct { return Refused(DuplicateItem); }
      var from, to := FindWarehouse(warehouses, source), FindWarehouse(warehouses, destination);
      if from.None? || to.None? { return Refused(ReferenceNotFound); }
      if from.value.legalEntityId != to.value.legalEntityId { return Refused(DifferentLegalEntity); }
      for i := 0 to |lines|
        invariant forall k | 0 <= k < i :: FindItem(items, lines[k].item).Some?
      {
        if FindItem(items, lines[i].item).None? { return Refused(ReferenceNotFound); }
      }
      var transfer := Transfer(source, destination, from.value.legalEntityId, Draft, lines);
      reply := Transferred(|transfers|, transfer);
      transfers := transfers + [transfer];
    }

    method CheckAvailable(warehouse: string, lines: seq<TransferLine>) returns (available: bool)
      ensures available <==> forall i | 0 <= i < |lines| :: Available(balances, warehouse, lines[i])
    {
      for i := 0 to |lines|
        invariant forall k | 0 <= k < i :: Available(balances, warehouse, lines[k])
      {
        var key := Key(warehouse, lines[i].item);
        if key !in balances || balances[key].onHand - balances[key].reserved < lines[i].quantity {
          assert !Available(balances, warehouse, lines[i]);
          return false;
        }
      }
      return true;
    }

    /** One balance and one movement per line. */
    method MoveLines(warehouse: string, lines: seq<TransferLine>, out: bool)
      modifies this`balances, this`movements
      ensures balances == ShiftLines(old(balances), warehouse, lines, out)
      ensures movements == old(movements) + LineMovements(warehouse, lines, out)
    {
      for i := 0 to |lines|
        invariant balances == ShiftLines(old(balances), warehouse, lines[..i], out)
        invariant movements == old(movements)
      {
        assert lines[..i + 1][..i] == lines[..i];
        Upsert(Key(warehouse, lines[i].item), if out then Minus(lines[i].quantity) else lines[i].quantity, 0);
      }
      assert lines[..|lines|] == lines;
      for i := 0 to |lines|
        invariant balances == ShiftLines(old(balances), warehouse, lines, out)
        invariant movements == old(movements) + LineMovements(warehouse, lines[..i], out)
      {
        assert lines[..i + 1][..i] == lines[..i];
        movements := movements + [LineMovement(warehouse, lines[i], out)];
      }
    }

    method ConfirmTransfer(id: nat) returns (reply: Reply)
      modifies this`balances, this`movements, this`transfers
      ensures (Contents(), reply) == Confirming(old(Contents()), id)
      ensures old(Fits(Contents())) ==> Fits(Contents())
    {
      if Fits(Contents()) { ConfirmKeeps(Contents(), id); }
      if id >= |transfers| { return Refused(NotFound); }
      var transfer := transfers[id];
      if transfer.status != Draft { return Transferred(id, transfer); }
      var available := CheckAvailable(transfer.source, transfer.lines);
      if !available { return Refused(StockUnavailable); }
      MoveLines(transfer.source, transfer.lines, true);
      transfers := transfers[id := transfer.(status := Confirmed)];
      return Transferred(id, transfers[id]);
    }

    method CompleteTransfer(id: nat) returns (reply: Reply)
      modifies this`balances, this`movements, this`transfers
      ensures (Contents(), reply) == Completing(old(Contents()), id)
      ensures old(Fits(Contents())) ==> Fits(Contents())
    {
      if Fits(Contents()) { CompleteKeeps(Contents(), id); }
      if id >= |transfers| { return Refused(NotFound); }
      var transfer := transfers[id];
      if transfer.status == Completed { return Transferred(id, transfer); }
      if transfer.status != Confirmed { return Refused(InvalidState); }
      MoveLines(transfer.destination, transfer.lines, false);
      transfers := transfers[id := transfer.(status := Completed)];
      return Transferred(id, transfers[id]);
    }
  }
}
