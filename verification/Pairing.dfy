/**
 The greedy debit/credit pairing.

 A journal is a list of lines, each with a debit and a credit amount in minor units.  The ledger knows
 only transfers: an amount moved between a debit account and a credit account.  The same two-pointer loop
 turns lines into transfers in five places; it comes in three shapes, modelled by the methods
 `PairTransfers` (two scalar remainders), `PairLines` (remainders decremented in place) and
 `CountTransfers` (amounts decremented in place, only counting).  All three are proved against `PairUp`,
 and what the source promises is proved about `PairUp`.
 */
module Pairing {

  datatype Line = Line(account: string, debit: nat, credit: nat)

  /** One entry on one side of a journal: the account (or any other tag) and a positive amount. */
  datatype Entry<A> = Entry(tag: A, amount: nat)

  datatype Pair<A> = Pair(debit: A, credit: A, amount: nat)

  /** A pair with the position it takes in the operation's transfer list. */
  datatype Transfer = Transfer(position: nat, debit: string, credit: string, amount: nat)

  // ----- the specification of the loop

  function Debits(lines: seq<Line>): seq<Entry<string>> {
    if lines == [] then []
    else (if lines[0].debit > 0 then [Entry(lines[0].account, lines[0].debit)] else []) + Debits(lines[1..])
  }

  function Credits(lines: seq<Line>): seq<Entry<string>> {
    if lines == [] then []
    else (if lines[0].credit > 0 then [Entry(lines[0].account, lines[0].credit)] else []) + Credits(lines[1..])
  }

  function Min(x: nat, y: nat): nat {
    if x < y then x else y
  }

  /** Takes `amount` off the first entry, dropping the entry when nothing is left of it. */
  function Spend<A>(entries: seq<Entry<A>>, amount: nat): seq<Entry<A>>
    requires entries != [] && amount <= entries[0].amount
  {
    if entries[0].amount == amount then entries[1..]
    else [Entry(entries[0].tag, entries[0].amount - amount)] + entries[1..]
  }

  function PairUp<A>(debits: seq<Entry<A>>, credits: seq<Entry<A>>): seq<Pair<A>>
    decreases |debits| + |credits|
  {
    if debits == [] || credits == [] then []
    else
      var amount := Min(debits[0].amount, credits[0].amount);
      [Pair(debits[0].tag, credits[0].tag, amount)] + PairUp(Spend(debits, amount), Spend(credits, amount))
  }

  function PairsOf(lines: seq<Line>): seq<Pair<string>> {
    PairUp(Debits(lines), Credits(lines))
  }

  function Numbered(pairs: seq<Pair<string>>): (transfers: seq<Transfer>)
  {
    seq(|pairs|, i requires 0 <= i < |pairs| => Transfer(i, pairs[i].debit, pairs[i].credit, pairs[i].amount))
  }

  ghost predicate Positive<A>(entries: seq<Entry<A>>) {
    forall i | 0 <= i < |entries| :: entries[i].amount > 0
  }

  function Total<A>(entries: seq<Entry<A>>): nat {
    if entries == [] then 0 else entries[0].amount + Total(entries[1..])
  }

  function Moved<A>(pairs: seq<Pair<A>>): nat {
    if pairs == [] then 0 else pairs[0].amount + Moved(pairs[1..])
  }

  // ----- the three loops

  /** The entries of one side that the scalar loop has still to pair. */
  ghost function Remaining(entries: seq<Entry<string>>, index: nat, remaining: nat): seq<Entry<string>>
    requires index <= |entries|
  {
    if index == |entries| then [] else [Entry(entries[index].tag, remaining)] + entries[index + 1..]
  }

  method FlatMapDebits(lines: seq<Line>) returns (debits: seq<Entry<string>>)
    ensures debits == Debits(lines)
  {
    debits := [];
    for i := 0 to |lines|
      invariant debits + Debits(lines[i..]) == Debits(lines)
    {
      if lines[i].debit > 0 {
        debits := debits + [Entry(lines[i].account, lines[i].debit)];
      }
      assert lines[i..][1..] == lines[i + 1..];
    }
  }

  method FlatMapCredits(lines: seq<Line>) returns (credits: seq<Entry<string>>)
    ensures credits == Credits(lines)
  {
    credits := [];
    for i := 0 to |lines|
      invariant credits + Credits(lines[i..]) == Credits(lines)
    {
      if lines[i].credit > 0 {
        credits := credits + [Entry(lines[i].account, lines[i].credit)];
      }
      assert lines[i..][1..] == lines[i + 1..];
    }
  }

  lemma UnfoldPairUp<A>(done: seq<Pair<A>>, debits: seq<Entry<A>>, credits: seq<Entry<A>>, amount: nat)
    requires debits != [] && credits != []
    requires amount == Min(debits[0].amount, credits[0].amount)
    ensures done + PairUp(debits, credits)
         == (done + [Pair(debits[0].tag, credits[0].tag, amount)]) + PairUp(Spend(debits, amount), Spend(credits, amount))
  {
  }

  lemma NumberedSnoc(done: seq<Pair<string>>, pair: Pair<string>)
    ensures Numbered(done + [pair]) == Numbered(done) + [Transfer(|done|, pair.debit, pair.credit, pair.amount)]
  {
  }

  /** Decrements a scalar remainder and moves to the next entry when it reaches zero. */
  method SpendScalar(entries: seq<Entry<string>>, index: nat, remaining: nat, amount: nat)
    returns (nextIndex: nat, nextRemaining: nat)
    requires index < |entries| && amount <= remaining
    ensures index <= nextIndex <= |entries| && (nextIndex == index ==> nextRemaining == remaining - amount)
    ensures nextIndex == index <==> amount < remaining
    ensures Remaining(entries, nextIndex, nextRemaining) == Spend(Remaining(entries, index, remaining), amount)
  {
    nextIndex, nextRemaining := index, remaining - amount;
    if nextRemaining == 0 {
      nextIndex := nextIndex + 1;
      nextRemaining := if nextIndex < |entries| then entries[nextIndex].amount else 0;
      assert Spend(Remaining(entries, index, remaining), amount) == entries[index + 1..];
    }
  }

  /** The scalar shape: two indices, two remainders, a growing result. */
  method PairTransfers(lines: seq<Line>) returns (result: seq<Transfer>)
    ensures result == Numbered(PairsOf(lines))
  {
    var debits := FlatMapDebits(lines);
    var credits := FlatMapCredits(lines);
    result := [];
    var debitIndex: nat, creditIndex: nat := 0, 0;
    var debitRemaining: nat := if |debits| > 0 then debits[0].amount else 0;
    var creditRemaining: nat := if |credits| > 0 then credits[0].amount else 0;
    ghost var done: seq<Pair<string>> := [];
    assert Remaining(debits, 0, debitRemaining) == debits;
    assert Remaining(credits, 0, creditRemaining) == credits;
    while debitIndex < |debits| && creditIndex < |credits|
      invariant debitIndex <= |debits| && creditIndex <= |credits|
      invariant result == Numbered(done)
      invariant done + PairUp(Remaining(debits, debitIndex, debitRemaining),
                              Remaining(credits, creditIndex, creditRemaining)) == PairsOf(lines)
      decreases |debits| - debitIndex + |credits| - creditIndex
    {
      var amount := if debitRemaining < creditRemaining then debitRemaining else creditRemaining;
      ghost var pair := Pair(debits[debitIndex].tag, credits[creditIndex].tag, amount);
      UnfoldPairUp(done, Remaining(debits, debitIndex, debitRemaining),
                   Remaining(credits, creditIndex, creditRemaining), amount);
      NumberedSnoc(done, pair);
      result := result + [Transfer(|result|, debits[debitIndex].tag, credits[creditIndex].tag, amount)];
      done := done + [pair];
      debitIndex, debitRemaining := SpendScalar(debits, debitIndex, debitRemaining, amount);
      creditIndex, creditRemaining := SpendScalar(credits, creditIndex, creditRemaining, amount);
    }
  }

  /** Decrements the remainder of an entry in place and moves past it when nothing is left. */
  method SpendInPlace(entries: array<Entry<string>>, index: nat, amount: nat) returns (nextIndex: nat)
    requires index < entries.Length && amount <= entries[index].amount
    modifies entries
    ensures index <= nextIndex <= entries.Length && (nextIndex == index <==> amount < old(entries[index].amount))
    ensures entries[nextIndex..] == Spend(old(entries[index..]), amount)
  {
    entries[index] := entries[index].(amount := entries[index].amount - amount);
    nextIndex := index;
    if entries[index].amount == 0 { nextIndex := nextIndex + 1; }
  }

  /** The in-place shape: the remainder of the current entry of each side is decremented where it stands. */
  method PairLines(lines: seq<Line>) returns (pairs: seq<Pair<string>>)
    ensures pairs == PairsOf(lines)
  {
    var debitSide := FlatMapDebits(lines);
    var creditSide := FlatMapCredits(lines);
    var debits := new Entry<string>[|debitSide|](i requires 0 <= i < |debitSide| => debitSide[i]);
    var credits := new Entry<string>[|creditSide|](i requires 0 <= i < |creditSide| => creditSide[i]);
    assert debits[0..] == debitSide && credits[0..] == creditSide;
    pairs := [];
    var debitIndex: nat, creditIndex: nat := 0, 0;
    while debitIndex < debits.Length && creditIndex < credits.Length
      invariant debitIndex <= debits.Length && creditIndex <= credits.Length
      invariant pairs + PairUp(debits[debitIndex..], credits[creditIndex..]) == PairsOf(lines)
      decreases debits.Length - debitIndex + credits.Length - creditIndex
    {
      var debit, credit := debits[debitIndex], credits[creditIndex];
      var amount := if debit.amount < credit.amount then debit.amount else credit.amount;
      UnfoldPairUp(pairs, debits[debitIndex..], credits[creditIndex..], amount);
      pairs := pairs + [Pair(debit.tag, credit.tag, amount)];
      debitIndex := SpendInPlace(debits, debitIndex, amount);
      creditIndex := SpendInPlace(credits, creditIndex, amount);
    }
  }

  function Amounts<A>(entries: seq<Entry<A>>): seq<nat> {
    seq(|entries|, i requires 0 <= i < |entries| => entries[i].amount)
  }

  lemma AmountsSpend<A>(entries: seq<Entry<A>>, amount: nat)
    requires entries != [] && amount <= entries[0].amount
    ensures Amounts(Spend(entries, amount))
         == if entries[0].amount == amount then Amounts(entries)[1..] else Amounts(entries)[0 := entries[0].amount - amount]
  {
  }

  /** Decrements an amount in place, moving past it when it reaches zero. */
  method SpendAmount(amounts: array<nat>, index: nat, amount: nat, ghost entries: seq<Entry<string>>) returns (nextIndex: nat)
    requires index < amounts.Length && amounts[index..] == Amounts(entries) && amount <= entries[0].amount
    modifies amounts
    ensures index <= nextIndex <= amounts.Length && (nextIndex == index <==> amount < old(amounts[index]))
    ensures amounts[nextIndex..] == Amounts(Spend(entries, amount))
  {
    assert amounts[index..][0] == amounts[index] == entries[0].amount;
    AmountsSpend(entries, amount);
    amounts[index] := amounts[index] - amount;
    nextIndex := index;
    if amounts[index] == 0 { nextIndex := nextIndex + 1; }
  }

  /** The counting shape: only the amounts are kept and only the number of transfers is returned. */
  method CountTransfers(lines: seq<Line>) returns (transferCount: nat)
    ensures transferCount == |PairsOf(lines)|
  {
    var debitSide := FlatMapDebits(lines);
    var creditSide := FlatMapCredits(lines);
    var debits := new nat[|debitSide|](i requires 0 <= i < |debitSide| => debitSide[i].amount);
    var credits := new nat[|creditSide|](i requires 0 <= i < |creditSide| => creditSide[i].amount);
    ghost var leftDebits, leftCredits := debitSide, creditSide;
    assert debits[0..] == Amounts(leftDebits) && credits[0..] == Amounts(leftCredits);
    transferCount := 0;
    var debitIndex: nat, creditIndex: nat := 0, 0;
    while debitIndex < debits.Length && creditIndex < credits.Length
      invariant debitIndex <= debits.Length && creditIndex <= credits.Length
      invariant debits[debitIndex..] == Amounts(leftDebits)
      invariant credits[creditIndex..] == Amounts(leftCredits)
      invariant transferCount + |PairUp(leftDebits, leftCredits)| == |PairsOf(lines)|
      decreases debits.Length - debitIndex + credits.Length - creditIndex
    {
      assert debits[debitIndex] == Amounts(leftDebits)[0] && credits[creditIndex] == Amounts(leftCredits)[0];
      var amount := if debits[debitIndex] < credits[creditIndex] then debits[debitIndex] else credits[creditIndex];
      UnfoldPairUp([], leftDebits, leftCredits, amount);
      debitIndex := SpendAmount(debits, debitIndex, amount, leftDebits);
      creditIndex := SpendAmount(credits, creditIndex, amount, leftCredits);
      leftDebits, leftCredits := Spend(leftDebits, amount), Spend(leftCredits, amount);
      transferCount := transferCount + 1;
    }
  }
}
