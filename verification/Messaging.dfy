/**
 The outbox and its consumers: an effect is committed together with its receipt, so whatever consumers interleave,
 fail or stop, each effect happens once per consumer and event.
 */
module Messaging {
  import opened Wrappers
  import opened OperationRecords

  datatype ReceiptKey = ReceiptKey(consumerId: string, eventId: string)

  /** The identity of the event a receipt was written for. */
  datatype Receipt = Receipt(eventType: string, idempotencyKey: string)

  function IdentityOf(event: Event): Receipt {
    Receipt(event.eventType, event.idempotencyKey)
  }

  // ----- interleaved consumers

  /** A consumer outside its transaction, or inside it with its effect done and not yet committed. */
  datatype Consumer = Resting | Working(key: ReceiptKey, source: Receipt)

  /** `effects` lists the committed effects in order. */
  datatype State = State(outbox: map<string, Event>, receipts: map<ReceiptKey, Receipt>, effects: seq<ReceiptKey>,
                         consumers: seq<Consumer>)

  datatype Action =
    | Start(key: ReceiptKey)
    | Commit
    | Abort

  datatype Occurrence = Act(consumer: nat, action: Action) | Publish(event: Event)

  datatype Reply = SourceMissing | Duplicate(receipt: Receipt) | IdentityMismatch | Proceed(source: Receipt)

  /** What the transaction reads first. */
  function Lookup(s: State, key: ReceiptKey): Reply {
    if key.eventId !in s.outbox then SourceMissing
    else if key in s.receipts then
      if s.receipts[key] == IdentityOf(s.outbox[key.eventId]) then Duplicate(s.receipts[key]) else IdentityMismatch
    else Proceed(IdentityOf(s.outbox[key.eventId]))
  }

  /** A receipt answers as a duplicate only for the event it was written for; the key reused for another event is a mismatch. */
  lemma LookupMeans(s: State, key: ReceiptKey)
    ensures var reply, known := Lookup(s, key), key.eventId in s.outbox;
      && (reply == SourceMissing <==> !known)
      && (known && key !in s.receipts ==>
            reply == Proceed(Receipt(s.outbox[key.eventId].eventType, s.outbox[key.eventId].idempotencyKey)))
      && (known && key in s.receipts ==>
            (reply == Duplicate(s.receipts[key]) <==>
               s.receipts[key].eventType == s.outbox[key.eventId].eventType
               && s.receipts[key].idempotencyKey == s.outbox[key.eventId].idempotencyKey)
            && (reply == Duplicate(s.receipts[key]) || reply == IdentityMismatch))
  {
  }

  /** The effect and the receipt commit together; a receipt that is already there undoes both. */
  function Step(s: State, c: nat, action: Action): State
    requires c < |s.consumers|
  {
    match (s.consumers[c], action)
    case (Resting, Start(key)) =>
      var reply := Lookup(s, key);
      if reply.Proceed? then s.(consumers := s.consumers[c := Working(key, reply.source)]) else s
    case (Working(key, source), Commit) =>
      var rested := s.(consumers := s.consumers[c := Resting]);
      if key in s.receipts then rested else rested.(receipts := s.receipts[key := source], effects := s.effects + [key])
    case (Working(_, _), Abort) => s.(consumers := s.consumers[c := Resting])
    case _ => s
  }

  function Next(s: State, o: Occurrence): State {
    match o
    case Act(c, action) => if c < |s.consumers| then Step(s, c, action) else s
    case Publish(event) =>
      var appended := AppendEvent(s.outbox, event);
      if appended.Success? then s.(outbox := appended.value) else s
  }

  function Run(s: State, occurrences: seq<Occurrence>): State
    decreases |occurrences|
  {
    if occurrences == [] then s else Run(Next(s, occurrences[0]), occurrences[1..])
  }

  predicate Holds(s: State, key: ReceiptKey, source: Receipt) {
    key.eventId in s.outbox && source == IdentityOf(s.outbox[key.eventId])
  }

  /** Effects and receipts correspond one to one, and every receipt is the identity of its event. */
  ghost predicate Fits(s: State) {
    && OutboxKeysUnique(s.outbox)
    && (forall key :: multiset(s.effects)[key] == if key in s.receipts then 1 else 0)
    && (forall key | key in s.receipts :: Holds(s, key, s.receipts[key]))
    && (forall c | 0 <= c < |s.consumers| && s.consumers[c].Working? :: Holds(s, s.consumers[c].key, s.consumers[c].source))
  }

  lemma CommitKeeps(s: State, c: nat)
    requires Fits(s) && c < |s.consumers| && s.consumers[c].Working?
    ensures Fits(Step(s, c, Commit))
  {
    var key, t := s.consumers[c].key, Step(s, c, Commit);
    if key !in s.receipts {
      forall k ensures multiset(t.effects)[k] == if k in t.receipts then 1 else 0 {
        assert multiset(t.effects) == multiset(s.effects) + multiset{key};
      }
    }
  }

  lemma StepKeeps(s: State, c: nat, action: Action)
    requires Fits(s) && c < |s.consumers|
    ensures Fits(Step(s, c, action))
  {
    if s.consumers[c].Working? && action.Commit? { CommitKeeps(s, c); }
  }

  lemma PublishKeeps(s: State, event: Event)
    requires Fits(s) && AppendEvent(s.outbox, event).Success?
    ensures Fits(s.(outbox := AppendEvent(s.outbox, event).value))
  {
    AppendEventKeepsKeys(s.outbox, event);
  }

  lemma NextKeeps(s: State, o: Occurrence)
    requires Fits(s)
    ensures Fits(Next(s, o))
  {
    match o
    case Act(c, action) => if c < |s.consumers| { StepKeeps(s, c, action); }
    case Publish(event) => if AppendEvent(s.outbox, event).Success? { PublishKeeps(s, event); }
  }

  lemma {:induction false} RunKeeps(s: State, occurrences: seq<Occurrence>)
    requires Fits(s)
    ensures Fits(Run(s, occurrences))
    decreases |occurrences|
  {
    if occurrences != [] {
      NextKeeps(s, occurrences[0]);
      RunKeeps(Next(s, occurrences[0]), occurrences[1..]);
    }
  }

  ghost predicate Initial(s: State) {
    && OutboxKeysUnique(s.outbox) && s.receipts == map[] && s.effects == []
    && forall c | 0 <= c < |s.consumers| :: s.consumers[c] == Resting
  }

  /**
   However consumers interleave, fail or stop, an effect is committed at most once per consumer and event, exactly when
   its receipt is there; and a repeated call is answered as a duplicate, never as an identity mismatch.
   */
  lemma EffectsHappenOnce(s: State, occurrences: seq<Occurrence>, key: ReceiptKey)
    requires Initial(s)
    ensures var t := Run(s, occurrences);
      && multiset(t.effects)[key] == (if key in t.receipts then 1 else 0)
      && Lookup(t, key) != IdentityMismatch
      && (key in t.effects <==> Lookup(t, key).Duplicate?)
  {
    assert multiset(s.effects) == multiset{};
    RunKeeps(s, occurrences);
    var t := Run(s, occurrences);
    assert key in t.effects <==> multiset(t.effects)[key] > 0;
  }

  lemma TwoSteps(s: State, a: Occurrence, b: Occurrence)
    ensures Run(s, [a, b]) == Next(Next(s, a), b)
  {
    assert [a, b][1..] == [b] && [b][1..] == [];
    assert Run(Next(s, a), [b]) == Run(Next(Next(s, a), b), []);
  }

  /**
   A consumer that is left to start and to commit does the effect exactly when the event is there and the effect has not been
   done; an abort leaves no trace, so the effect can still be done.
   */
  lemma UndisturbedConsumption(s: State, c: nat, key: ReceiptKey)
    requires Fits(s) && c < |s.consumers| && s.consumers[c] == Resting
    ensures var t := Run(s, [Act(c, Start(key)), Act(c, Commit)]);
      if key.eventId in s.outbox && key !in s.receipts
      then t == s.(effects := s.effects + [key],
                   receipts := s.receipts[key := Receipt(s.outbox[key.eventId].eventType, s.outbox[key.eventId].idempotencyKey)])
      else t == s
    ensures Run(s, [Act(c, Start(key)), Act(c, Abort)]) == s
  {
    TwoSteps(s, Act(c, Start(key)), Act(c, Commit));
    TwoSteps(s, Act(c, Start(key)), Act(c, Abort));
    if Lookup(s, key).Proceed? {
      assert s.consumers[c := Working(key, Lookup(s, key).source)][c := Resting] == s.consumers;
    }
  }

  /** A consumer that loses the race to another commits nothing. */
  lemma LateCommitMeans(s: State, c: nat)
    requires c < |s.consumers| && s.consumers[c].Working? && s.consumers[c].key in s.receipts
    ensures Next(s, Act(c, Commit)) == s.(consumers := s.consumers[c := Resting])
  {
  }

  // ----- the in-memory outbox

  /** The index from event type and idempotency key to event id. */
  type DedupeIndex = map<(string, string), string>

  ghost predicate Indexes(index: DedupeIndex, outbox: map<string, Event>) {
    && OutboxKeysUnique(outbox)
    && (forall id | id in outbox :: DedupeKey(outbox[id]) in index && index[DedupeKey(outbox[id])] == id)
    && (forall key | key in index :: index[key] in outbox && DedupeKey(outbox[index[key]]) == key)
  }

  function DedupeKey(event: Event): (string, string) {
    (event.eventType, event.idempotencyKey)
  }

  class EventMaps {
    var events: map<string, Event>
    var dedupe: DedupeIndex
    var receipts: map<ReceiptKey, Receipt>

    ghost predicate Valid()
      reads this
    {
      Indexes(dedupe, events)
    }

    constructor ()
      ensures Valid() && events == map[] && receipts == map[]
    {
      events, dedupe, receipts := map[], map[], map[];
    }

    /** Two index lookups decide what the table decides by its two unique keys. */
    method Append(event: Event) returns (accepted: bool)
      requires Valid()
      modifies this`events, this`dedupe
      ensures Valid() && accepted == AppendEvent(old(events), event).Success?
      ensures events == if accepted then AppendEvent(old(events), event).value else old(events)
    {
      CollisionsByIndex(events, dedupe, event);
      var byId := if event.eventId in events then Some(events[event.eventId]) else None;
      var byDedupe := if DedupeKey(event) in dedupe then Some(events[dedupe[DedupeKey(event)]]) else None;
      var existing := if byId.Some? then byId else byDedupe;
      if existing.Some? { return byId == byDedupe && existing.value == event; }
      events := events[event.eventId := event];
      dedupe := dedupe[DedupeKey(event) := event.eventId];
      AppendEventKeepsKeys(old(events), event);
      return true;
    }

    /**
     Runs an effect that publishes events; a failure puts every map back.  It is done if and only if the event is there and has
     no receipt of this consumer yet, the effect succeeds, and the outbox takes every publication.
     */
    method ConsumeOnce(key: ReceiptKey, published: seq<Event>, succeeds: bool) returns (reply: Reply, done: bool)
      requires Valid()
      modifies this
      ensures Valid() && reply == Lookup(State(old(events), old(receipts), [], []), key)
      ensures reply.SourceMissing? <==> key.eventId !in old(events)
      ensures reply.Proceed? <==> key.eventId in old(events) && key !in old(receipts)
      ensures reply.Duplicate? <==>
        && key.eventId in old(events) && key in old(receipts)
        && old(receipts)[key] == Receipt(old(events)[key.eventId].eventType, old(events)[key.eventId].idempotencyKey)
      ensures done <==> reply.Proceed? && succeeds && AppendAll(old(events), published).Some?
      ensures !done ==> events == old(events) && receipts == old(receipts)
      ensures done ==>
        && receipts == old(receipts)[key := IdentityOf(old(events)[key.eventId])] && Some(events) == AppendAll(old(events), published)
    {
      reply, done := Lookup(State(events, receipts, [], []), key), false;
      if !reply.Proceed? { return; }
      var eventSnapshot, dedupeSnapshot := events, dedupe;
      var complete := PublishAll(published);
      if !complete || !succeeds {
        events, dedupe := eventSnapshot, dedupeSnapshot;
        return;
      }
      receipts := receipts[key := reply.source];
      done := true;
    }

    method PublishAll(published: seq<Event>) returns (accepted: bool)
      requires Valid()
      modifies this`events, this`dedupe
      ensures Valid() && (accepted <==> AppendAll(old(events), published).Some?)
      ensures accepted ==> Some(events) == AppendAll(old(events), published)
    {
      for i := 0 to |published|
        invariant Valid() && AppendAll(old(events), published[..i]) == Some(events)
      {
        assert published[..i + 1][..i] == published[..i];
        accepted := Append(published[i]);
        if !accepted {
          RefusedPrefix(old(events), published, i + 1);
          return;
        }
      }
      assert published[..|published|] == published;
      return true;
    }
  }

  /** Once a publication is refused, so is the whole list. */
  lemma {:induction false} RefusedPrefix(outbox: map<string, Event>, published: seq<Event>, k: nat)
    requires k <= |published| && AppendAll(outbox, published[..k]).None?
    ensures AppendAll(outbox, published).None?
    decreases |published|
  {
    if k == |published| {
      assert published[..k] == published;
    } else {
      var init := published[..|published| - 1];
      assert init[..k] == published[..k];
      RefusedPrefix(outbox, init, k);
    }
  }

  /** The outbox after every event was appended in turn, if none was refused. */
  function AppendAll(outbox: map<string, Event>, published: seq<Event>): Option<map<string, Event>> {
    if published == [] then Some(outbox)
    else
      var before := AppendAll(outbox, published[..|published| - 1]);
      if before.None? then None
      else
        var appended := AppendEvent(before.value, published[|published| - 1]);
        if appended.Success? then Some(appended.value) else None
  }

  /** The stored events an append runs into are the ones the two indexes name. */
  lemma CollisionsByIndex(outbox: map<string, Event>, index: DedupeIndex, event: Event)
    requires Indexes(index, outbox)
    ensures Collisions(outbox, event)
         == (if event.eventId in outbox then {event.eventId} else {})
            + (if DedupeKey(event) in index then {index[DedupeKey(event)]} else {})
  {
    forall id | id in Collisions(outbox, event)
      ensures id == event.eventId || (DedupeKey(event) in index && id == index[DedupeKey(event)])
    {
      if id != event.eventId { assert DedupeKey(outbox[id]) == DedupeKey(event); }
    }
  }
}
