/**
 The in-memory inventory used by tests: maps instead of tables, indexes instead of searches, no movements and no
 last guard.  It answers every call as the tables do.
 */
module InventoryTestLayer {
  import opened Wrappers
  import opened Inventory
  import opened InventoryInvariant

  function Lookup<K, V>(entries: map<K, V>, key: K): Option<V> {
    if key in entries then Some(entries[key]) else None
  }

  // ----- searches against indexes

  lemma CorrectionAfterAppend(movements: seq<Movement>, added: Movement, key: string)
    ensures FindCorrection(movements + [added], key)
         == if FindCorrection(movements, key).Some? then FindCorrection(movements, key)
            else if added.correction.Some? && added.correction.value.idempotencyKey == key then added.correction else None
    decreases |movements|
  {
    if movements == [] {
      assert [added][1..] == [];
    } else {
      CorrectionAfterAppend(movements[1..], added, key);
      assert (movements + [added])[1..] == movements[1..] + [added];
    }
  }

  lemma {:induction false} CorrectionAfterLines(movements: seq<Movement>, warehouse: string, lines: seq<TransferLine>, out: bool, key: string)
    ensures FindCorrection(movements + LineMovements(warehouse, lines, out), key) == FindCorrection(movements, key)
    decreases |lines|
  {
    if lines == [] {
      assert movements + [] == movements;
    } else {
      var init, last := lines[..|lines| - 1], lines[|lines| - 1];
      CorrectionAfterLines(movements, warehouse, init, out, key);
      CorrectionAfterAppend(movements + LineMovements(warehouse, init, out), LineMovement(warehouse, last, out), key);
      assert movements + LineMovements(warehouse, lines, out)
          == movements + LineMovements(warehouse, init, out) + [LineMovement(warehouse, last, out)];
    }
  }

  lemma ReservationAfterAppend(reservations: seq<Reservation>, added: Reservation, key: string)
    ensures FindReservation(reservations + [added], key)
         == if added.idempotencyKey == Some(key) then Some(|reservations|) else FindReservation(reservations, key)
  {
    assert (reservations + [added])[..|reservations|] == reservations;
  }

  lemma {:induction false} ReservationAfterUpdate(reservations: seq<Reservation>, id: nat, status: ReservationStatus, key: string)
    requires id < |reservations|
    ensures FindReservation(reservations[id := reservations[id].(status := status)], key) == FindReservation(reservations, key)
    decreases |reservations|
  {
    var init := reservations[..|reservations| - 1];
    var updated := reservations[id := reservations[id].(status := status)];
    if id < |reservations| - 1 {
      ReservationAfterUpdate(init, id, status, key);
      assert updated[..|updated| - 1] == init[id := init[id].(status := status)];
    } else {
      assert updated[..|updated| - 1] == init;
    }
  }

  /** The maps of the in-memory inventory. */
  datatype Memory = Memory(warehouses: map<string, Warehouse>, items: map<string, Item>, balances: map<Key, Balance>,
                           reservations: map<nat, Reservation>, transfers: map<nat, Transfer>,
                           reservationIds: map<string, nat>, corrections: map<string, Correction>)

  ghost predicate MirrorsCatalog(m: Memory, s: Stock) {
    && (forall id :: Lookup(m.warehouses, id) == FindWarehouse(s.warehouses, id))
    && (forall id :: Lookup(m.items, id) == FindItem(s.items, id))
  }

  ghost predicate MirrorsRows(m: Memory, s: Stock) {
    && m.balances == s.balances
    && (forall i :: i in m.reservations <==> 0 <= i < |s.reservations|)
    && (forall i | 0 <= i < |s.reservations| :: m.reservations[i] == s.reservations[i])
    && (forall i :: i in m.transfers <==> 0 <= i < |s.transfers|)
    && (forall i | 0 <= i < |s.transfers| :: m.transfers[i] == s.transfers[i])
  }

  /** The indexes find what a search of the stored rows finds. */
  ghost predicate MirrorsIndexes(m: Memory, s: Stock) {
    && (forall key :: Lookup(m.reservationIds, key) == FindReservation(s.reservations, key))
    && (forall key :: Lookup(m.corrections, key) == FindCorrection(s.movements, key))
  }

  ghost predicate Mirrors(m: Memory, s: Stock) {
    MirrorsCatalog(m, s) && MirrorsRows(m, s) && MirrorsIndexes(m, s)
  }

  lemma CatalogLookups(m: Memory, s: Stock, key: Key)
    requires Mirrors(m, s)
    ensures (key.warehouse in m.warehouses <==> FindWarehouse(s.warehouses, key.warehouse).Some?)
         && (key.warehouse in m.warehouses ==> FindWarehouse(s.warehouses, key.warehouse) == Some(m.warehouses[key.warehouse]))
    ensures (key.item in m.items <==> FindItem(s.items, key.item).Some?)
         && (key.item in m.items ==> FindItem(s.items, key.item) == Some(m.items[key.item]))
  {
    assert Lookup(m.warehouses, key.warehouse) == FindWarehouse(s.warehouses, key.warehouse);
    assert Lookup(m.items, key.item) == FindItem(s.items, key.item);
  }

  // ----- a change to the tables, mirrored in the maps

  /** A movement without an idempotency key leaves the indexes right. */
  lemma PlainMovementMirrored(m: Memory, s: Stock, key: Key, onHand: int, reserved: int, added: Movement)
    requires Mirrors(m, s) && added.correction.None?
    ensures Mirrors(m.(balances := Shift(m.balances, key, onHand, reserved)),
                    s.(balances := Shift(s.balances, key, onHand, reserved), movements := s.movements + [added]))
  {
    forall k ensures FindCorrection(s.movements + [added], k) == FindCorrection(s.movements, k) {
      CorrectionAfterAppend(s.movements, added, k);
    }
  }

  lemma CorrectionMirrored(m: Memory, s: Stock, c: Correction, added: Movement)
    requires Mirrors(m, s) && FindCorrection(s.movements, c.idempotencyKey).None? && added.correction == Some(c)
    ensures Mirrors(m.(balances := Shift(m.balances, c.key, c.adjustment, 0), corrections := m.corrections[c.idempotencyKey := c]),
                    s.(balances := Shift(s.balances, c.key, c.adjustment, 0), movements := s.movements + [added]))
  {
    var after := m.corrections[c.idempotencyKey := c];
    forall k ensures Lookup(after, k) == FindCorrection(s.movements + [added], k) {
      CorrectionAfterAppend(s.movements, added, k);
      assert Lookup(m.corrections, k) == FindCorrection(s.movements, k);
    }
  }

  lemma ReservationMirrored(m: Memory, s: Stock, r: Reservation)
    requires Mirrors(m, s) && (r.idempotencyKey.Some? ==> r.idempotencyKey.value !in m.reservationIds)
    ensures Mirrors(m.(reservations := m.reservations[|s.reservations| := r],
                       reservationIds := if r.idempotencyKey.Some? then m.reservationIds[r.idempotencyKey.value := |s.reservations|]
                                         else m.reservationIds),
                    s.(reservations := s.reservations + [r]))
  {
    var after := if r.idempotencyKey.Some? then m.reservationIds[r.idempotencyKey.value := |s.reservations|] else m.reservationIds;
    forall k ensures Lookup(after, k) == FindReservation(s.reservations + [r], k) {
      ReservationAfterAppend(s.reservations, r, k);
      assert Lookup(m.reservationIds, k) == FindReservation(s.reservations, k);
    }
  }

  lemma StatusMirrored(m: Memory, s: Stock, id: nat, status: ReservationStatus)
    requires Mirrors(m, s) && id < |s.reservations|
    ensures Mirrors(m.(reservations := m.reservations[id := m.reservations[id].(status := status)]),
                    s.(reservations := s.reservations[id := s.reservations[id].(status := status)]))
  {
    var updated := s.reservations[id := s.reservations[id].(status := status)];
    forall k ensures FindReservation(updated, k) == FindReservation(s.reservations, k) {
      ReservationAfterUpdate(s.reservations, id, status, k);
    }
  }

  lemma LinesMirrored(m: Memory, s: Stock, id: nat, warehouse: string, out: bool, status: TransferStatus)
    requires Mirrors(m, s) && id < |s.transfers|
    ensures var t := s.transfers[id];
      Mirrors(m.(balances := ShiftLines(m.balances, warehouse, t.lines, out), transfers := m.transfers[id := t.(status := status)]),
              s.(balances := ShiftLines(s.balances, warehouse, t.lines, out), transfers := s.transfers[id := t.(status := status)],
                 movements := s.movements + LineMovements(warehouse, t.lines, out)))
  {
    var moved := LineMovements(warehouse, s.transfers[id].lines, out);
    forall k ensures FindCorrection(s.movements + moved, k) == FindCorrection(s.movements, k) {
      CorrectionAfterLines(s.movements, warehouse, s.transfers[id].lines, out, k);
    }
  }

  function Below(n: nat): (numbers: set<nat>)
    ensures |numbers| == n && forall i: nat :: i in numbers <==> i < n
  {
    if n == 0 then {} else Below(n - 1) + {n - 1}
  }

  /** Identifiers are handed out in order, so the next one is the number of entries. */
  lemma KeyCount<V>(entries: map<nat, V>, n: nat)
    requires forall i :: i in entries <==> 0 <= i < n
    ensures |entries| == n
  {
    assert entries.Keys == Below(n);
  }

  function Replies(s: Stock, commands: seq<Command>): seq<Reply>
    decreases |commands|
  {
    if commands == [] then []
    else [Execute(s, commands[0]).1] + Replies(Execute(s, commands[0]).0, commands[1..])
  }

  class InventoryMaps {
    var warehouses: map<string, Warehouse>
    var items: map<string, Item>
    var balances: map<Key, Balance>
    var reservations: map<nat, Reservation>
    var transfers: map<nat, Transfer>
    var reservationIds: map<string, nat>
    var corrections: map<string, Correction>

    function Contents(): Memory
      reads this
    {
      Memory(warehouses, items, balances, reservations, transfers, reservationIds, corrections)
    }

    constructor (warehouses: map<string, Warehouse>, items: map<string, Item>)
      ensures Contents() == Memory(warehouses, items, map[], map[], map[], map[], map[])
      ensures forall s | Initial(s) && MirrorsCatalog(Contents(), s) :: Mirrors(Contents(), s)
    {
      this.warehouses, this.items := warehouses, items;
      balances, reservations, transfers := map[], map[], map[];
      reservationIds, corrections := map[], map[];
    }

    method ReceiveStock(ghost s: Stock, key: Key, quantity: nat, legalEntityId: Option<string>) returns (reply: Reply)
      requires Mirrors(Contents(), s)
      modifies this`balances
      ensures Mirrors(Contents(), Receive(s, key, quantity, legalEntityId).0) && reply == Receive(s, key, quantity, legalEntityId).1
    {
      CatalogLookups(Contents(), s, key);
      if key.warehouse !in warehouses || key.item !in items { return Refused(ReferenceNotFound); }
      if legalEntityId.Some? && warehouses[key.warehouse].legalEntityId != legalEntityId.value { return Refused(LegalEntityMismatch); }
      PlainMovementMirrored(Contents(), s, key, quantity, 0, Movement(key, quantity, Receipt, None));
      var balance := In(balances, key);
      balances := balances[key := Balance(balance.onHand + quantity, balance.reserved)];
      return Stocked(balances[key]);
    }

    method AdjustStock(ghost s: Stock, correction: Correction) returns (reply: Reply)
      requires Fits(s) && Mirrors(Contents(), s)
      modifies this`balances, this`corrections
      ensures Mirrors(Contents(), Adjust(s, correction).0) && reply == Adjust(s, correction).1
    {
      var key, adjustment := correction.key, correction.adjustment;
      assert Lookup(corrections, correction.idempotencyKey) == FindCorrection(s.movements, correction.idempotencyKey);
      if correction.idempotencyKey in corrections {
        var existing := corrections[correction.idempotencyKey];
        return if existing == correction then Corrected(existing) else Refused(IdempotencyConflict);
      }
      CatalogLookups(Contents(), s, key);
      if key.warehouse !in warehouses || key.item !in items { return Refused(ReferenceNotFound); }
      if items[key.item].unitOfMeasure != correction.unitOfMeasure { return Refused(UnitOfMeasureMismatch); }
      var balance := In(balances, key);
      assert Bounded(balance) by { assert BalanceFits(s, key); }
      if balance.onHand + adjustment < balance.reserved { return Refused(StockUnavailable); }
      CorrectionMirrored(Contents(), s, correction,
                         Movement(key, adjustment, if adjustment < 0 then Issue else Receipt, Some(correction)));
      balances := balances[key := Balance(balance.onHand + adjustment, balance.reserved)];
      corrections := corrections[correction.idempotencyKey := correction];
      return Corrected(correction);
    }

    method ReserveStock(ghost s: Stock, key: Key, quantity: nat, idempotencyKey: Option<string>, legalEntityId: Option<string>)
      returns (reply: Reply)
      requires Mirrors(Contents(), s)
      modifies this`balances, this`reservations, this`reservationIds
      ensures Mirrors(Contents(), Reserving(s, key, quantity, idempotencyKey, legalEntityId).0)
      ensures reply == Reserving(s, key, quantity, idempotencyKey, legalEntityId).1
    {
      CatalogLookups(Contents(), s, key);
      if legalEntityId.Some? {
        if key.warehouse !in warehouses || warehouses[key.warehouse].legalEntityId != legalEntityId.value {
          return Refused(LegalEntityMismatch);
        }
      }
      assert idempotencyKey.Some? ==> Lookup(reservationIds, idempotencyKey.value) == FindReservation(s.reservations, idempotencyKey.value);
      if idempotencyKey.Some? && idempotencyKey.value in reservationIds {
        var existing := reservations[reservationIds[idempotencyKey.value]];
        if existing.key != key || existing.quantity != quantity { return Refused(IdempotencyConflict); }
        return Reserved(reservationIds[idempotencyKey.value], existing);
      }
      if key !in balances || balances[key].onHand - balances[key].reserved < quantity { return Refused(StockUnavailable); }
      reply := HoldBack(s, Reservation(key, quantity, idempotencyKey, Active));
    }

    /** Stores a new reservation and holds its quantity back. */
    method HoldBack(ghost s: Stock, reservation: Reservation) returns (reply: Reply)
      requires Mirrors(Contents(), s) && reservation.key in balances
      requires reservation.idempotencyKey.Some? ==> reservation.idempotencyKey.value !in reservationIds
      modifies this`balances, this`reservations, this`reservationIds
      ensures Mirrors(Contents(), s.(balances := Shift(s.balances, reservation.key, 0, reservation.quantity),
                                     reservations := s.reservations + [reservation],
                                     movements := s.movements + [Movement(reservation.key, reservation.quantity, Reserve, None)]))
      ensures reply == Reserved(|s.reservations|, reservation)
    {
      var key, quantity := reservation.key, reservation.quantity;
      var id := StoreReservation(s, reservation);
      ghost var stored := s.(reservations := s.reservations + [reservation]);
      PlainMovementMirrored(Contents(), stored, key, 0, quantity, Movement(key, quantity, Reserve, None));
      balances := balances[key := Balance(balances[key].onHand, balances[key].reserved + quantity)];
      return Reserved(id, reservation);
    }

    /** Stores a reservation under a new identifier and indexes it by its key. */
    method StoreReservation(ghost s: Stock, reservation: Reservation) returns (id: nat)
      requires Mirrors(Contents(), s)
      requires reservation.idempotencyKey.Some? ==> reservation.idempotencyKey.value !in reservationIds
      modifies this`reservations, this`reservationIds
      ensures id == |s.reservations| && Mirrors(Contents(), s.(reservations := s.reservations + [reservation]))
    {
      ReservationMirrored(Contents(), s, reservation);
      id := |reservations|;
      assert id == |s.reservations| by { KeyCount(reservations, |s.reservations|); }
      reservations := reservations[id := reservation];
      if reservation.idempotencyKey.Some? { reservationIds := reservationIds[reservation.idempotencyKey.value := id]; }
    }

    method ReleaseReservation(ghost s: Stock, id: nat) returns (reply: Reply)
      requires Fits(s) && Mirrors(Contents(), s)
      modifies this`balances, this`reservations
      ensures Mirrors(Contents(), Releasing(s, id).0) && reply == Releasing(s, id).1
    {
      if id !in reservations { return Refused(NotFound); }
      var reservation := reservations[id];
      if reservation.status == Released { return Reserved(id, reservation); }
      if reservation.status != Active { return Refused(InvalidState); }
      GuardsUnreachable(s, id);
      StatusMirrored(Contents(), s, id, Released);
      var balance := balances[reservation.key];
      reservations := reservations[id := reservation.(status := Released)];
      ghost var stored := s.(reservations := s.reservations[id := reservation.(status := Released)]);
      PlainMovementMirrored(Contents(), stored, reservation.key, 0, Minus(reservation.quantity),
                            Movement(reservation.key, Minus(reservation.quantity), Release, None));
      balances := balances[reservation.key := Balance(balance.onHand, balance.reserved - reservation.quantity)];
      return Reserved(id, reservations[id]);
    }

    method FulfillReservation(ghost s: Stock, id: nat) returns (reply: Reply)
      requires Fits(s) && Mirrors(Contents(), s)
      modifies this`balances, this`reservations
      ensures Mirrors(Contents(), Fulfilling(s, id).0) && reply == Fulfilling(s, id).1
    {
      if id !in reservations { return Refused(NotFound); }
      var reservation := reservations[id];
      if reservation.status == Fulfilled { return Reserved(id, reservation); }
      if reservation.status != Active { return Refused(InvalidState); }
      GuardsUnreachable(s, id);
      reply := IssueReserved(s, id);
    }

    /** Marks a reservation fulfilled and issues its quantity. */
    method IssueReserved(ghost s: Stock, id: nat) returns (reply: Reply)
      requires Mirrors(Contents(), s) && id in reservations && reservations[id].key in balances
      requires reservations[id].status == Active
      requires balances[reservations[id].key].onHand >= reservations[id].quantity
      requires balances[reservations[id].key].reserved >= reservations[id].quantity
      modifies this`balances, this`reservations
      ensures id < |s.reservations|
      ensures var r := s.reservations[id];
        Mirrors(Contents(), s.(balances := Shift(s.balances, r.key, Minus(r.quantity), Minus(r.quantity)),
                               reservations := s.reservations[id := r.(status := Fulfilled)],
                               movements := s.movements + [Movement(r.key, Minus(r.quantity), Issue, None)]))
      ensures reply == Reserved(id, s.reservations[id].(status := Fulfilled))
    {
      var reservation := reservations[id];
      StatusMirrored(Contents(), s, id, Fulfilled);
      var balance := balances[reservation.key];
      reservations := reservations[id := reservation.(status := Fulfilled)];
      ghost var stored := s.(reservations := s.reservations[id := reservation.(status := Fulfilled)]);
      PlainMovementMirrored(Contents(), stored, reservation.key, Minus(reservation.quantity), Minus(reservation.quantity),
                            Movement(reservation.key, Minus(reservation.quantity), Issue, None));
      balances := balances[reservation.key := Balance(balance.onHand - reservation.quantity, balance.reserved - reservation.quantity)];
      return Reserved(id, reservations[id]);
    }

    method CreateTransfer(ghost s: Stock, source: string, destination: string, lines: seq<TransferLine>) returns (reply: Reply)
      requires Mirrors(Contents(), s)
      modifies this`transfers
      ensures Mirrors(Contents(), CreatingTransfer(s, source, destination, lines).0)
      ensures reply == CreatingTransfer(s, source, destination, lines).1
    {
      if source == destination { return Refused(SameWarehouse); }
      if !DistinctItems(lines) { return Refused(DuplicateItem); }
      CatalogLookups(Contents(), s, Key(source, ""));
      CatalogLookups(Contents(), s, Key(destination, ""));
      if source !in warehouses || destination !in warehouses { return Refused(ReferenceNotFound); }
      if warehouses[destination].legalEntityId != warehouses[source].legalEntityId { return Refused(DifferentLegalEntity); }
      var known := KnownItems(s, lines);
      if !known { return Refused(ReferenceNotFound); }
      var id, transfer := |transfers|, Transfer(source, destination, warehouses[source].legalEntityId, Draft, lines);
      assert id == |s.transfers| by { KeyCount(transfers, |s.transfers|); }
      transfers := transfers[id := transfer];
      return Transferred(id, transfer);
    }

    method KnownItems(ghost s: Stock, lines: seq<TransferLine>) returns (known: bool)
      requires Mirrors(Contents(), s)
      ensures known <==> forall i | 0 <= i < |lines| :: FindItem(s.items, lines[i].item).Some?
    {
      for i := 0 to |lines|
        invariant forall k | 0 <= k < i :: FindItem(s.items, lines[k].item).Some?
      {
        CatalogLookups(Contents(), s, Key("", lines[i].item));
        if lines[i].item !in items { return false; }
      }
      return true;
    }

    method ConfirmTransfer(ghost s: Stock, id: nat) returns (reply: Reply)
      requires Mirrors(Contents(), s)
      modifies this`balances, this`transfers
      ensures Mirrors(Contents(), Confirming(s, id).0) && reply == Confirming(s, id).1
    {
      if id !in transfers { return Refused(NotFound); }
      var transfer := transfers[id];
      if transfer.status != Draft { return Transferred(id, transfer); }
      for i := 0 to |transfer.lines|
        invariant forall k | 0 <= k < i :: Available(balances, transfer.source, transfer.lines[k])
      {
        if !Available(balances, transfer.source, transfer.lines[i]) { return Refused(StockUnavailable); }
      }
      LinesMirrored(Contents(), s, id, transfer.source, true, Confirmed);
      MoveLines(transfer.source, transfer.lines, true);
      transfers := transfers[id := transfer.(status := Confirmed)];
      return Transferred(id, transfers[id]);
    }

    method CompleteTransfer(ghost s: Stock, id: nat) returns (reply: Reply)
      requires Mirrors(Contents(), s)
      modifies this`balances, this`transfers
      ensures Mirrors(Contents(), Completing(s, id).0) && reply == Completing(s, id).1
    {
      if id !in transfers { return Refused(NotFound); }
      var transfer := transfers[id];
      if transfer.status == Completed { return Transferred(id, transfer); }
      if transfer.status != Confirmed { return Refused(InvalidState); }
      LinesMirrored(Contents(), s, id, transfer.destination, false, Completed);
      MoveLines(transfer.destination, transfer.lines, false);
      transfers := transfers[id := transfer.(status := Completed)];
      return Transferred(id, transfers[id]);
    }

    method MoveLines(warehouse: string, lines: seq<TransferLine>, out: bool)
      modifies this`balances
      ensures balances == ShiftLines(old(balances), warehouse, lines, out)
    {
      for i := 0 to |lines|
        invariant balances == ShiftLines(old(balances), warehouse, lines[..i], out)
      {
        assert lines[..i + 1][..i] == lines[..i];
        var key := Key(warehouse, lines[i].item);
        var balance := In(balances, key);
        balances := balances[key := Balance(
          balance.onHand + (if out then Minus(lines[i].quantity) else lines[i].quantity), balance.reserved)];
      }
      assert lines[..|lines|] == lines;
    }

    method Call(ghost s: Stock, command: Command) returns (reply: Reply)
      requires Fits(s) && Mirrors(Contents(), s)
      modifies this
      ensures Mirrors(Contents(), Execute(s, command).0) && reply == Execute(s, command).1
    {
      match command
      case ReceiveStock(key, quantity, entity) => reply := ReceiveStock(s, key, quantity, entity);
      case AdjustStock(correction) => reply := AdjustStock(s, correction);
      case ReserveStock(key, quantity, idempotencyKey, entity) => reply := ReserveStock(s, key, quantity, idempotencyKey, entity);
      case ReleaseReservation(id) => reply := ReleaseReservation(s, id);
      case FulfillReservation(id) => reply := FulfillReservation(s, id);
      case CreateTransfer(source, destination, lines) => reply := CreateTransfer(s, source, destination, lines);
      case ConfirmTransfer(id) => reply := ConfirmTransfer(s, id);
      case CompleteTransfer(id) => reply := CompleteTransfer(s, id);
    }

    /** Over any sequence of calls the answers are those of the tables, and so are the balances afterwards. */
    method CallAll(ghost s: Stock, commands: seq<Command>) returns (replies: seq<Reply>)
      requires Fits(s) && Mirrors(Contents(), s)
      modifies this
      ensures replies == Replies(s, commands)
      ensures Mirrors(Contents(), Run(s, commands)) && balances == Run(s, commands).balances
    {
      replies := [];
      ghost var now := s;
      for i := 0 to |commands|
        invariant Fits(now) && Mirrors(Contents(), now)
        invariant Run(s, commands) == Run(now, commands[i..]) && Replies(s, commands) == replies + Replies(now, commands[i..])
      {
        var reply := Call(now, commands[i]);
        assert commands[i..][0] == commands[i] && commands[i..][1..] == commands[i + 1..];
        replies := replies + [reply];
        ExecuteKeeps(now, commands[i]);
        now := Execute(now, commands[i]).0;
      }
    }
  }
}
