/**
 Validation of journal lines: the loop run before an intent is stored (`ValidateLines`) and the one both
 ledgers run before they post (`ValidateJournal`).
 */
module JournalValidation {
  import opened Wrappers
  import opened Pairing
  import opened PairingLaws

  const FINANCIAL_LEDGER_MAX_MINOR: nat := 0x1_00000000_00000000_00000000_00000000 - 1

  datatype LineError = InvalidJournalLine(index: nat) | UnbalancedJournal(debit: nat, credit: nat)

  datatype RejectionReason = InvalidAccount | InvalidAmount | Unbalanced | ConstraintViolation

  predicate OneSided(line: Line) {
    (line.debit > 0) != (line.credit > 0)
  }

  /** What both validations accept. */
  ghost predicate WellFormed(lines: seq<Line>) {
    && lines != []
    && (forall line | line in lines :: OneSided(line))
    && TotalDebit(lines) == TotalCredit(lines) <= FINANCIAL_LEDGER_MAX_MINOR
  }

  /** The line at `index` is not one-sided or takes a running total past the ledger's limit. */
  ghost predicate BadAt(lines: seq<Line>, index: nat)
    requires index < |lines|
  {
    || !OneSided(lines[index])
    || TotalDebit(lines[..index + 1]) > FINANCIAL_LEDGER_MAX_MINOR
    || TotalCredit(lines[..index + 1]) > FINANCIAL_LEDGER_MAX_MINOR
  }

  ghost predicate FirstBad(lines: seq<Line>, index: nat) {
    index < |lines| && BadAt(lines, index) && forall k | 0 <= k < index :: !BadAt(lines, k)
  }

  lemma {:induction false} TotalsOfPrefix(lines: seq<Line>, index: nat)
    requires index < |lines|
    ensures TotalDebit(lines[..index + 1]) == TotalDebit(lines[..index]) + lines[index].debit
    ensures TotalCredit(lines[..index + 1]) == TotalCredit(lines[..index]) + lines[index].credit
  {
    if index > 0 {
      TotalsOfPrefix(lines[1..], index - 1);
      assert lines[1..][..index] == lines[..index + 1][1..];
      assert lines[1..][..index - 1] == lines[..index][1..];
    } else {
      assert lines[..1][1..] == [];
    }
  }

  lemma TotalsGrow(lines: seq<Line>, from: nat, to: nat)
    requires from <= to <= |lines|
    ensures TotalDebit(lines[..from]) <= TotalDebit(lines[..to])
    ensures TotalCredit(lines[..from]) <= TotalCredit(lines[..to])
  {
    if from < to {
      TotalsOfPrefix(lines, to - 1);
      TotalsGrow(lines, from, to - 1);
    }
  }

  /** No line is bad exactly when every line is one-sided and both totals are within the limit. */
  lemma NoBadLine(lines: seq<Line>)
    ensures (forall k | 0 <= k < |lines| :: !BadAt(lines, k))
       <==> (forall line | line in lines :: OneSided(line))
            && TotalDebit(lines) <= FINANCIAL_LEDGER_MAX_MINOR && TotalCredit(lines) <= FINANCIAL_LEDGER_MAX_MINOR
  {
    assert lines[..|lines|] == lines;
    forall k | 0 <= k < |lines|
      ensures BadAt(lines, k) ==>
        || !OneSided(lines[k])
        || TotalDebit(lines) > FINANCIAL_LEDGER_MAX_MINOR
        || TotalCredit(lines) > FINANCIAL_LEDGER_MAX_MINOR
    {
      TotalsGrow(lines, k + 1, |lines|);
    }
    if forall k | 0 <= k < |lines| :: !BadAt(lines, k) {
      forall line | line in lines ensures OneSided(line) {
        var k :| 0 <= k < |lines| && lines[k] == line;
        assert !BadAt(lines, k);
      }
      if lines != [] { assert !BadAt(lines, |lines| - 1); }
    }
  }

  /** A well-formed journal has at least two lines: a single one-sided line cannot balance. */
  lemma WellFormedHasTwoLines(lines: seq<Line>)
    requires WellFormed(lines)
    ensures |lines| >= 2
  {
    assert OneSided(lines[0]);
    assert TotalDebit(lines) == lines[0].debit + TotalDebit(lines[1..]);
    assert TotalCredit(lines) == lines[0].credit + TotalCredit(lines[1..]);
  }

  /** Run before an intent is stored.  The error names the first offending line. */
  method ValidateLines(lines: seq<Line>) returns (error: Option<LineError>)
    ensures error.None? <==> WellFormed(lines)
    ensures forall i: nat :: error == Some(InvalidJournalLine(i)) <==> FirstBad(lines, i)
    ensures error.Some? && error.value.UnbalancedJournal? ==>
      error.value == UnbalancedJournal(TotalDebit(lines), TotalCredit(lines))
  {
    NoBadLine(lines);
    if |lines| == 0 {
      return Some(UnbalancedJournal(0, 0));
    }
    var debit: nat, credit: nat := 0, 0;
    for i := 0 to |lines|
      invariant debit == TotalDebit(lines[..i]) && credit == TotalCredit(lines[..i])
      invariant forall k | 0 <= k < i :: !BadAt(lines, k)
    {
      TotalsOfPrefix(lines, i);
      if (lines[i].debit > 0) == (lines[i].credit > 0) {
        assert FirstBad(lines, i);
        return Some(InvalidJournalLine(i));
      }
      debit := debit + lines[i].debit;
      credit := credit + lines[i].credit;
      if debit > FINANCIAL_LEDGER_MAX_MINOR || credit > FINANCIAL_LEDGER_MAX_MINOR {
        assert FirstBad(lines, i);
        return Some(InvalidJournalLine(i));
      }
    }
    assert lines[..|lines|] == lines;
    if debit != credit {
      return Some(UnbalancedJournal(debit, credit));
    }
    return None;
  }

  /** What the ledgers answer to a journal before they look at any account. */
  ghost function JournalVerdict(lines: seq<Line>): Option<RejectionReason> {
    if |lines| < 2 then Some(Unbalanced)
    else if exists k :: 0 <= k < |lines| && BadAt(lines, k) then Some(InvalidAmount)
    else if TotalDebit(lines) != TotalCredit(lines) then Some(Unbalanced)
    else None
  }

  /** Run by both ledgers before posting or looking up a journal. */
  method ValidateJournal(lines: seq<Line>) returns (rejection: Option<RejectionReason>)
    ensures rejection == JournalVerdict(lines)
  {
    if |lines| < 2 {
      return Some(Unbalanced);
    }
    var debit: nat, credit: nat := 0, 0;
    for i := 0 to |lines|
      invariant debit == TotalDebit(lines[..i]) && credit == TotalCredit(lines[..i])
      invariant forall k | 0 <= k < i :: !BadAt(lines, k)
    {
      TotalsOfPrefix(lines, i);
      if lines[i].debit > FINANCIAL_LEDGER_MAX_MINOR || lines[i].credit > FINANCIAL_LEDGER_MAX_MINOR
         || (lines[i].debit > 0) == (lines[i].credit > 0) {
        assert BadAt(lines, i);
        return Some(InvalidAmount);
      }
      debit := debit + lines[i].debit;
      credit := credit + lines[i].credit;
      if debit > FINANCIAL_LEDGER_MAX_MINOR || credit > FINANCIAL_LEDGER_MAX_MINOR {
        assert BadAt(lines, i);
        return Some(InvalidAmount);
      }
    }
    assert lines[..|lines|] == lines;
    return if debit == credit then None else Some(Unbalanced);
  }

  /** The two validations accept the same journals, so a stored intent is never refused as unbalanced or invalid. */
  lemma ValidationsAgree(lines: seq<Line>)
    ensures JournalVerdict(lines).None? <==> WellFormed(lines)
  {
    NoBadLine(lines);
    if WellFormed(lines) { WellFormedHasTwoLines(lines); }
  }

  /** What each verdict of the ledgers is about; a single line is unbalanced whatever it holds. */
  lemma VerdictMeans(lines: seq<Line>)
    ensures var sound := (forall line | line in lines :: OneSided(line))
        && TotalDebit(lines) <= FINANCIAL_LEDGER_MAX_MINOR && TotalCredit(lines) <= FINANCIAL_LEDGER_MAX_MINOR;
      && (JournalVerdict(lines) == Some(InvalidAmount) <==> |lines| >= 2 && !sound)
      && (JournalVerdict(lines) == Some(Unbalanced) <==> |lines| < 2 || (sound && TotalDebit(lines) != TotalCredit(lines)))
      && (JournalVerdict(lines).Some? ==> JournalVerdict(lines).value in {InvalidAmount, Unbalanced})
  {
    NoBadLine(lines);
  }

  /** No transfer of the journal debits and credits the same account. */
  ghost predicate NoSelfTransfer(lines: seq<Line>) {
    forall i | 0 <= i < |PairsOf(lines)| :: PairsOf(lines)[i].debit != PairsOf(lines)[i].credit
  }

  /** Swapping the sides keeps a journal acceptable, so the reversal of a stored journal passes every check. */
  lemma ReversalStaysWellFormed(lines: seq<Line>)
    ensures WellFormed(SwapLines(lines)) <==> WellFormed(lines)
    ensures NoSelfTransfer(SwapLines(lines)) <==> NoSelfTransfer(lines)
  {
    SwapTotals(lines);
    ReversalFlipsPairs(lines);
    var swapped := SwapLines(lines);
    if WellFormed(lines) {
      forall line | line in swapped ensures OneSided(line) {
        var k :| 0 <= k < |swapped| && swapped[k] == line;
        assert lines[k] in lines;
      }
    }
    if WellFormed(swapped) {
      forall line | line in lines ensures OneSided(line) {
        var k :| 0 <= k < |lines| && lines[k] == line;
        assert swapped[k] in swapped;
      }
    }
    var pairs := PairsOf(lines);
    assert forall i | 0 <= i < |pairs| :: Flip(pairs)[i].debit == pairs[i].credit && Flip(pairs)[i].credit == pairs[i].debit;
  }

  lemma {:induction false} SwapTotals(lines: seq<Line>)
    ensures TotalDebit(SwapLines(lines)) == TotalCredit(lines) && TotalCredit(SwapLines(lines)) == TotalDebit(lines)
  {
    if lines != [] {
      SwapTotals(lines[1..]);
      assert SwapLines(lines)[1..] == SwapLines(lines[1..]);
    }
  }

  /** A well-formed journal moves something: it has at least one transfer. */
  lemma WellFormedHasTransfers(lines: seq<Line>)
    requires WellFormed(lines)
    ensures PairsOf(lines) != []
  {
    SidesOfLines(lines, "");
    BalancedJournalKeepsAccounts(lines, "");
    assert lines[0] in lines;
    assert TotalDebit(lines) > 0;
  }

  /** The accounts of a journal, each once. */
  function DistinctAccounts(lines: seq<Line>): (accounts: seq<string>)
    ensures forall line | line in lines :: line.account in accounts
    ensures forall account | account in accounts :: exists line :: line in lines && line.account == account
  {
    if lines == [] then []
    else
      var init, last := DistinctAccounts(lines[..|lines| - 1]), lines[|lines| - 1].account;
      if last in init then init else init + [last]
  }

  // ----- a concrete journal

  const SAMPLE_LINES := [Line("cash", 100, 0), Line("sales", 0, 100)]

  lemma SampleIsWellFormed()
    ensures WellFormed(SAMPLE_LINES) && NoSelfTransfer(SAMPLE_LINES)
    ensures LineDebit("cash", SAMPLE_LINES) == 100 && LineCredit("cash", SAMPLE_LINES) == 0
    ensures LineDebit("sales", SAMPLE_LINES) == 0 && LineCredit("sales", SAMPLE_LINES) == 100
  {
    var lines := SAMPLE_LINES;
    assert lines[1..] == [Line("sales", 0, 100)] && lines[1..][1..] == [];
    assert Credits(lines[1..]) == [Entry("sales", 100)] + Credits([]);
    assert Debits(lines) == [Entry("cash", 100)] && Credits(lines) == [Entry("sales", 100)];
    assert PairsOf(lines) == [Pair("cash", "sales", 100)];
    assert TotalDebit(lines) == 100 && TotalCredit(lines) == 100 by {
      assert TotalDebit(lines[1..]) == 0 + TotalDebit([]);
      assert TotalCredit(lines[1..]) == 100 + TotalCredit([]);
    }
    assert LineDebit("cash", lines[1..]) == 0 && LineCredit("cash", lines[1..]) == 0;
    assert LineDebit("sales", lines[1..]) == 0 && LineCredit("sales", lines[1..]) == 100;
  }
}
