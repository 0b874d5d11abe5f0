/**
 What the pairing promises: conservation per side and per account, the bound on the number of transfers,
 a closed form that does not mention the loop, and the behaviour under reversal.
 */
module PairingLaws {
  import opened Pairing

  /** What an account is given on one side of a journal. */
  function TotalFor<A(==)>(tag: A, entries: seq<Entry<A>>): nat {
    if entries == [] then 0
    else (if entries[0].tag == tag then entries[0].amount else 0) + TotalFor(tag, entries[1..])
  }

  function DebitedTo<A(==)>(tag: A, pairs: seq<Pair<A>>): nat {
    if pairs == [] then 0
    else (if pairs[0].debit == tag then pairs[0].amount else 0) + DebitedTo(tag, pairs[1..])
  }

  function CreditedTo<A(==)>(tag: A, pairs: seq<Pair<A>>): nat {
    if pairs == [] then 0
    else (if pairs[0].credit == tag then pairs[0].amount else 0) + CreditedTo(tag, pairs[1..])
  }

  /** What is moved from one credit tag to one debit tag. */
  function MovedBetween<A(==)>(debit: A, credit: A, pairs: seq<Pair<A>>): nat {
    if pairs == [] then 0
    else
      var first := if pairs[0].debit == debit && pairs[0].credit == credit then pairs[0].amount else 0;
      first + MovedBetween(debit, credit, pairs[1..])
  }

  function LineDebit(account: string, lines: seq<Line>): nat {
    if lines == [] then 0
    else (if lines[0].account == account then lines[0].debit else 0) + LineDebit(account, lines[1..])
  }

  function LineCredit(account: string, lines: seq<Line>): nat {
    if lines == [] then 0
    else (if lines[0].account == account then lines[0].credit else 0) + LineCredit(account, lines[1..])
  }

  function TotalDebit(lines: seq<Line>): nat {
    if lines == [] then 0 else lines[0].debit + TotalDebit(lines[1..])
  }

  function TotalCredit(lines: seq<Line>): nat {
    if lines == [] then 0 else lines[0].credit + TotalCredit(lines[1..])
  }

  // ----- conservation

  /** Every amount is positive, the total paired is the smaller side, and there are at most n + m - 1 pairs. */
  lemma {:induction false} PairUpConserves<A>(debits: seq<Entry<A>>, credits: seq<Entry<A>>)
    requires Positive(debits) && Positive(credits)
    ensures forall i | 0 <= i < |PairUp(debits, credits)| :: PairUp(debits, credits)[i].amount > 0
    ensures Moved(PairUp(debits, credits)) == Min(Total(debits), Total(credits))
    ensures debits != [] && credits != [] ==> 0 < |PairUp(debits, credits)| <= |debits| + |credits| - 1
    decreases |debits| + |credits|
  {
    if debits != [] && credits != [] {
      var amount := Min(debits[0].amount, credits[0].amount);
      var rest := PairUp(Spend(debits, amount), Spend(credits, amount));
      PairUpConserves(Spend(debits, amount), Spend(credits, amount));
      SpendTotal(debits, amount);
      SpendTotal(credits, amount);
      var all := PairUp(debits, credits);
      assert all[0].amount == amount && all[1..] == rest;
    }
  }

  lemma SpendTotal<A>(entries: seq<Entry<A>>, amount: nat)
    requires entries != [] && amount <= entries[0].amount
    ensures Total(Spend(entries, amount)) == Total(entries) - amount
  {
  }

  lemma SpendTotalFor<A>(tag: A, entries: seq<Entry<A>>, amount: nat)
    requires entries != [] && amount <= entries[0].amount
    ensures TotalFor(tag, Spend(entries, amount)) == TotalFor(tag, entries) - (if entries[0].tag == tag then amount else 0)
  {
    if entries[0].amount != amount {
      assert Spend(entries, amount)[1..] == entries[1..];
    }
  }

  /** The side that is not larger is used up: each of its accounts is given exactly what its lines say. */
  lemma {:induction false} PairUpConservesAccounts<A>(tag: A, debits: seq<Entry<A>>, credits: seq<Entry<A>>)
    requires Positive(debits) && Positive(credits)
    ensures Total(debits) <= Total(credits) ==> DebitedTo(tag, PairUp(debits, credits)) == TotalFor(tag, debits)
    ensures Total(credits) <= Total(debits) ==> CreditedTo(tag, PairUp(debits, credits)) == TotalFor(tag, credits)
    decreases |debits| + |credits|
  {
    if debits != [] && credits != [] {
      var amount := Min(debits[0].amount, credits[0].amount);
      PairUpConservesAccounts(tag, Spend(debits, amount), Spend(credits, amount));
      SpendTotal(debits, amount);
      SpendTotal(credits, amount);
      SpendTotalFor(tag, debits, amount);
      SpendTotalFor(tag, credits, amount);
      var all := PairUp(debits, credits);
      assert all[1..] == PairUp(Spend(debits, amount), Spend(credits, amount));
    } else {
      EmptyIffZero(debits);
      EmptyIffZero(credits);
    }
  }

  lemma EmptyIffZero<A>(entries: seq<Entry<A>>)
    requires Positive(entries)
    ensures Total(entries) == 0 <==> entries == []
  {
  }

  // ----- the closed form

  /** Where entry `index` begins when the entries of one side are laid end to end. */
  function Start<A>(entries: seq<Entry<A>>, index: nat): nat
    requires index <= |entries|
  {
    Total(entries[..index])
  }

  /** The length of the overlap of two half-open intervals. */
  function Overlap(from1: int, to1: int, from2: int, to2: int): nat {
    var from := if from1 < from2 then from2 else from1;
    var to := if to1 < to2 then to1 else to2;
    if from < to then to - from else 0
  }

  ghost predicate DistinctTags<A>(entries: seq<Entry<A>>) {
    forall k, l | 0 <= k < l < |entries| :: entries[k].tag != entries[l].tag
  }

  lemma SpendKeeps<A>(entries: seq<Entry<A>>, amount: nat)
    requires Positive(entries) && DistinctTags(entries) && entries != [] && amount <= entries[0].amount
    ensures Positive(Spend(entries, amount)) && DistinctTags(Spend(entries, amount))
    ensures entries[0].amount == amount ==> forall k | 0 <= k < |entries| - 1 :: Spend(entries, amount)[k].tag != entries[0].tag
  {
  }

  lemma FirstPairMoves<A>(debits: seq<Entry<A>>, credits: seq<Entry<A>>, i: nat, j: nat)
    requires DistinctTags(debits) && DistinctTags(credits) && i < |debits| && j < |credits|
    ensures var amount := Min(debits[0].amount, credits[0].amount);
      MovedBetween(debits[i].tag, credits[j].tag, PairUp(debits, credits))
      == (if i == 0 && j == 0 then amount else 0)
       + MovedBetween(debits[i].tag, credits[j].tag, PairUp(Spend(debits, amount), Spend(credits, amount)))
  {
    var amount := Min(debits[0].amount, credits[0].amount);
    var all := PairUp(debits, credits);
    assert all[1..] == PairUp(Spend(debits, amount), Spend(credits, amount));
    assert i > 0 ==> debits[0].tag != debits[i].tag;
    assert j > 0 ==> credits[0].tag != credits[j].tag;
  }

  /**
   Lay the debits end to end and the credits end to end.  The amount moved between debit i and credit j is
   the length of the overlap of their intervals.  This pins the pairing down without describing the loop.
   */
  lemma {:induction false} PairUpIsOverlap<A>(debits: seq<Entry<A>>, credits: seq<Entry<A>>, i: nat, j: nat)
    requires Positive(debits) && Positive(credits) && DistinctTags(debits) && DistinctTags(credits)
    requires i < |debits| && j < |credits|
    ensures MovedBetween(debits[i].tag, credits[j].tag, PairUp(debits, credits))
         == Overlap(Start(debits, i), Start(debits, i) + debits[i].amount,
                    Start(credits, j), Start(credits, j) + credits[j].amount)
    decreases |debits| + |credits|
  {
    var amount := Min(debits[0].amount, credits[0].amount);
    var restDebits, restCredits := Spend(debits, amount), Spend(credits, amount);
    FirstPairMoves(debits, credits, i, j);
    SpendKeeps(debits, amount);
    SpendKeeps(credits, amount);
    StartAfterSpend(debits, amount, i);
    StartAfterSpend(credits, amount, j);
    if (i == 0 && debits[0].amount == amount) || (j == 0 && credits[0].amount == amount) {
      TagNotMoved(debits[i].tag, credits[j].tag, restDebits, restCredits);
    } else {
      var i' := if debits[0].amount == amount then i - 1 else i;
      var j' := if credits[0].amount == amount then j - 1 else j;
      PairUpIsOverlap(restDebits, restCredits, i', j');
    }
  }

  /** Spending shifts the start of every later entry by the amount spent. */
  lemma StartAfterSpend<A>(entries: seq<Entry<A>>, amount: nat, i: nat)
    requires i < |entries| && amount <= entries[0].amount
    ensures i == 0 ==> Start(entries, i) == 0
    ensures i > 0 ==> Start(entries, i) >= entries[0].amount
    ensures entries[0].amount != amount ==>
      && Spend(entries, amount)[i].tag == entries[i].tag
      && Spend(entries, amount)[i].amount == (if i == 0 then entries[0].amount - amount else entries[i].amount)
      && Start(Spend(entries, amount), i) == (if i == 0 then 0 else Start(entries, i) - amount)
    ensures entries[0].amount == amount && i > 0 ==>
      && Spend(entries, amount)[i - 1] == entries[i]
      && Start(Spend(entries, amount), i - 1) == Start(entries, i) - amount
  {
    if i > 0 {
      assert entries[..i][0] == entries[0] && entries[..i][1..] == entries[1..i];
      if entries[0].amount == amount {
        assert Spend(entries, amount)[..i - 1] == entries[1..i];
      } else {
        var spent := Spend(entries, amount);
        assert spent[..i][0] == spent[0] && spent[..i][1..] == entries[1..i];
      }
    }
  }

  /** A tag that no longer occurs on its side takes part in no further pair. */
  lemma {:induction false} TagNotMoved<A>(debit: A, credit: A, debits: seq<Entry<A>>, credits: seq<Entry<A>>)
    requires (forall k | 0 <= k < |debits| :: debits[k].tag != debit) || (forall k | 0 <= k < |credits| :: credits[k].tag != credit)
    ensures MovedBetween(debit, credit, PairUp(debits, credits)) == 0
    decreases |debits| + |credits|
  {
    if debits != [] && credits != [] {
      var amount := Min(debits[0].amount, credits[0].amount);
      TagNotMoved(debit, credit, Spend(debits, amount), Spend(credits, amount));
      var all := PairUp(debits, credits);
      assert all[1..] == PairUp(Spend(debits, amount), Spend(credits, amount));
    }
  }

  // ----- repeated accounts

  function Retag<A, B>(rename: A -> B, entries: seq<Entry<A>>): (renamed: seq<Entry<B>>)
  {
    seq(|entries|, i requires 0 <= i < |entries| => Entry(rename(entries[i].tag), entries[i].amount))
  }

  function RetagPairs<A, B>(debitName: A -> B, creditName: A -> B, pairs: seq<Pair<A>>): (renamed: seq<Pair<B>>)
  {
    seq(|pairs|, i requires 0 <= i < |pairs| =>
      Pair(debitName(pairs[i].debit), creditName(pairs[i].credit), pairs[i].amount))
  }

  lemma SpendRetags<A, B>(rename: A -> B, entries: seq<Entry<A>>, amount: nat)
    requires entries != [] && amount <= entries[0].amount
    ensures Retag(rename, entries) != [] && Retag(rename, entries)[0] == Entry(rename(entries[0].tag), entries[0].amount)
    ensures Retag(rename, Spend(entries, amount)) == Spend(Retag(rename, entries), amount)
  {
  }

  lemma RetagPairsCons<A, B>(debitName: A -> B, creditName: A -> B, first: Pair<A>, rest: seq<Pair<A>>)
    ensures RetagPairs(debitName, creditName, [first] + rest)
         == [Pair(debitName(first.debit), creditName(first.credit), first.amount)] + RetagPairs(debitName, creditName, rest)
  {
  }

  /** The loop never looks at the tags. */
  lemma {:induction false} PairUpIsParametric<A, B>(debitName: A -> B, creditName: A -> B,
                                                    debits: seq<Entry<A>>, credits: seq<Entry<A>>)
    ensures PairUp(Retag(debitName, debits), Retag(creditName, credits))
         == RetagPairs(debitName, creditName, PairUp(debits, credits))
    decreases |debits| + |credits|
  {
    if debits != [] && credits != [] {
      var amount := Min(debits[0].amount, credits[0].amount);
      var restDebits, restCredits := Spend(debits, amount), Spend(credits, amount);
      PairUpIsParametric(debitName, creditName, restDebits, restCredits);
      SpendRetags(debitName, debits, amount);
      SpendRetags(creditName, credits, amount);
      RetagPairsCons(debitName, creditName, Pair(debits[0].tag, credits[0].tag, amount), PairUp(restDebits, restCredits));
    }
  }

  /** The entries tagged by their position instead of their account. */
  function Positions(entries: seq<Entry<string>>): (tagged: seq<Entry<nat>>)
  {
    seq(|entries|, i requires 0 <= i < |entries| => Entry(i, entries[i].amount))
  }

  function NameOf(entries: seq<Entry<string>>): nat -> string {
    (i: nat) => if i < |entries| then entries[i].tag else ""
  }

  /** The pairs of accounts are the pairs of positions, with each position replaced by its account. */
  ghost predicate FollowsPositions(debits: seq<Entry<string>>, credits: seq<Entry<string>>) {
    PairUp(debits, credits) == RetagPairs(NameOf(debits), NameOf(credits), PairUp(Positions(debits), Positions(credits)))
  }

  /** Positions i and j exchange exactly the overlap of the intervals their amounts occupy on either side. */
  ghost predicate ExchangesOverlap(debits: seq<Entry<string>>, credits: seq<Entry<string>>, i: nat, j: nat)
    requires i < |debits| && j < |credits|
  {
    MovedBetween(i, j, PairUp(Positions(debits), Positions(credits)))
      == Overlap(Start(debits, i), Start(debits, i) + debits[i].amount,
                 Start(credits, j), Start(credits, j) + credits[j].amount)
  }

  /** The closed form for any journal, repeated accounts included, in which the loop does not occur. */
  lemma JournalPairsAreOverlaps(lines: seq<Line>, i: nat, j: nat)
    requires i < |Debits(lines)| && j < |Credits(lines)|
    ensures FollowsPositions(Debits(lines), Credits(lines)) && ExchangesOverlap(Debits(lines), Credits(lines), i, j)
  {
    assert Positive(Debits(lines)) && Positive(Credits(lines)) by { SidesOfLines(lines, ""); }
    PositionsNamed(Debits(lines), Credits(lines));
    PositionsOverlap(Debits(lines), Credits(lines), i, j);
  }

  lemma PositionsNamed(debits: seq<Entry<string>>, credits: seq<Entry<string>>)
    ensures FollowsPositions(debits, credits)
  {
    PairUpIsParametric(NameOf(debits), NameOf(credits), Positions(debits), Positions(credits));
    assert Retag(NameOf(debits), Positions(debits)) == debits;
    assert Retag(NameOf(credits), Positions(credits)) == credits;
  }

  lemma PositionsOverlap(debits: seq<Entry<string>>, credits: seq<Entry<string>>, i: nat, j: nat)
    requires Positive(debits) && Positive(credits) && i < |debits| && j < |credits|
    ensures ExchangesOverlap(debits, credits, i, j)
  {
    PairUpIsOverlap(Positions(debits), Positions(credits), i, j);
    StartOfPositions(debits, i);
    StartOfPositions(credits, j);
  }

  lemma StartOfPositions(entries: seq<Entry<string>>, i: nat)
    requires i <= |entries|
    ensures Start(Positions(entries), i) == Start(entries, i)
  {
    TotalByAmounts(Positions(entries)[..i], entries[..i]);
  }

  lemma TotalByAmounts<A, B>(left: seq<Entry<A>>, right: seq<Entry<B>>)
    requires |left| == |right| && forall k | 0 <= k < |left| :: left[k].amount == right[k].amount
    ensures Total(left) == Total(right)
  {
  }

  // ----- reversal

  function Flip<A>(pairs: seq<Pair<A>>): (flipped: seq<Pair<A>>)
  {
    seq(|pairs|, i requires 0 <= i < |pairs| => Pair(pairs[i].credit, pairs[i].debit, pairs[i].amount))
  }

  function SwapLines(lines: seq<Line>): (swapped: seq<Line>)
    ensures |swapped| == |lines|
    ensures forall i | 0 <= i < |lines| :: swapped[i] == Line(lines[i].account, lines[i].credit, lines[i].debit)
  {
    seq(|lines|, i requires 0 <= i < |lines| => Line(lines[i].account, lines[i].credit, lines[i].debit))
  }

  lemma {:induction false} PairUpFlips<A>(debits: seq<Entry<A>>, credits: seq<Entry<A>>)
    ensures PairUp(credits, debits) == Flip(PairUp(debits, credits))
    decreases |debits| + |credits|
  {
    if debits != [] && credits != [] {
      var amount := Min(debits[0].amount, credits[0].amount);
      PairUpFlips(Spend(debits, amount), Spend(credits, amount));
      FlipCons(Pair(debits[0].tag, credits[0].tag, amount), PairUp(Spend(debits, amount), Spend(credits, amount)));
    }
  }

  lemma FlipCons<A>(first: Pair<A>, rest: seq<Pair<A>>)
    ensures Flip([first] + rest) == [Pair(first.credit, first.debit, first.amount)] + Flip(rest)
  {
  }

  lemma {:induction false} SwapLinesSwapsSides(lines: seq<Line>)
    ensures Debits(SwapLines(lines)) == Credits(lines) && Credits(SwapLines(lines)) == Debits(lines)
  {
    if lines != [] {
      SwapLinesSwapsSides(lines[1..]);
      assert SwapLines(lines)[1..] == SwapLines(lines[1..]);
    }
  }

  /** Pairing the swapped lines gives the same transfers with debit and credit swapped. */
  lemma ReversalFlipsPairs(lines: seq<Line>)
    ensures PairsOf(SwapLines(lines)) == Flip(PairsOf(lines))
  {
    SwapLinesSwapsSides(lines);
    PairUpFlips(Debits(lines), Credits(lines));
  }

  // ----- from lines to transfers

  lemma {:induction false} DebitSideOfLines(lines: seq<Line>, account: string)
    ensures Positive(Debits(lines)) && Total(Debits(lines)) == TotalDebit(lines) && |Debits(lines)| <= |lines|
    ensures TotalFor(account, Debits(lines)) == LineDebit(account, lines)
  {
    if lines != [] {
      DebitSideOfLines(lines[1..], account);
      var rest := Debits(lines[1..]);
      if lines[0].debit > 0 { assert Debits(lines)[1..] == rest; } else { assert Debits(lines) == rest; }
    }
  }

  lemma {:induction false} CreditSideOfLines(lines: seq<Line>, account: string)
    ensures Positive(Credits(lines)) && Total(Credits(lines)) == TotalCredit(lines) && |Credits(lines)| <= |lines|
    ensures TotalFor(account, Credits(lines)) == LineCredit(account, lines)
  {
    if lines != [] {
      CreditSideOfLines(lines[1..], account);
      var rest := Credits(lines[1..]);
      if lines[0].credit > 0 { assert Credits(lines)[1..] == rest; } else { assert Credits(lines) == rest; }
    }
  }

  lemma SidesOfLines(lines: seq<Line>, account: string)
    ensures Positive(Debits(lines)) && Positive(Credits(lines))
    ensures Total(Debits(lines)) == TotalDebit(lines) && Total(Credits(lines)) == TotalCredit(lines)
    ensures TotalFor(account, Debits(lines)) == LineDebit(account, lines)
    ensures TotalFor(account, Credits(lines)) == LineCredit(account, lines)
    ensures |Debits(lines)| + |Credits(lines)| <= 2 * |lines|
  {
    DebitSideOfLines(lines, account);
    CreditSideOfLines(lines, account);
  }

  /** In a balanced journal the transfers give every account exactly the debits and credits of its lines. */
  lemma BalancedJournalKeepsAccounts(lines: seq<Line>, account: string)
    requires TotalDebit(lines) == TotalCredit(lines)
    ensures DebitedTo(account, PairsOf(lines)) == LineDebit(account, lines)
    ensures CreditedTo(account, PairsOf(lines)) == LineCredit(account, lines)
    ensures Moved(PairsOf(lines)) == TotalDebit(lines)
  {
    SidesOfLines(lines, account);
    PairUpConservesAccounts(account, Debits(lines), Credits(lines));
    PairUpConserves(Debits(lines), Credits(lines));
  }
}
