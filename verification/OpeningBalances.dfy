/**
 Verification of opening balances: both sides keyed by entity, account, currency and mapping version, and compared
 entry by entry.
 */
module OpeningBalances {
  import opened Wrappers
  import opened FinancialAmount

  datatype OpeningBalance = OpeningBalance(
    legalEntityId: string, accountId: string, currency: string, mappingVersion: nat, debitsMinor: string, creditsMinor: string)

  datatype MismatchKind = Duplicate | MissingSource | MissingTarget | InvalidAmount | FieldMismatch

  function UpperChar(c: char): char {
    if 'a' <= c <= 'z' then c - 'a' + 'A' else c
  }

  function Upper(s: string): string {
    seq(|s|, i requires 0 <= i < |s| => UpperChar(s[i]))
  }

  function OpeningKey(entry: OpeningBalance): string {
    entry.legalEntityId + ":" + entry.accountId + ":" + Upper(entry.currency) + ":" + Print(entry.mappingVersion)
  }

  /** Canonical digits, or nothing. */
  function Amount(value: string): Option<nat> {
    if IsMinor(value) then Some(Parse(value)) else None
  }

  /** An amount is read as the number it is written for. */
  lemma AmountIsRead(value: string)
    ensures Amount(value).None? <==> !(value == "0" || (IsDigits(value) && value[0] != '0'))
    ensures forall n: nat :: Amount(Print(n)) == Some(n)
  {
    forall n: nat ensures Amount(Print(n)) == Some(n) { ParsePrint(n); }
  }

  function Debits(entry: OpeningBalance): nat {
    if Amount(entry.debitsMinor).Some? then Amount(entry.debitsMinor).value else 0
  }

  function Credits(entry: OpeningBalance): nat {
    if Amount(entry.creditsMinor).Some? then Amount(entry.creditsMinor).value else 0
  }

  predicate ValidAmounts(entry: OpeningBalance) {
    Amount(entry.debitsMinor).Some? && Amount(entry.creditsMinor).Some?
  }

  /** Every field equal, the currency up to case. */
  predicate SameFields(left: OpeningBalance, right: OpeningBalance) {
    && left.legalEntityId == right.legalEntityId && left.accountId == right.accountId
    && Upper(left.currency) == Upper(right.currency) && left.mappingVersion == right.mappingVersion
    && left.debitsMinor == right.debitsMinor && left.creditsMinor == right.creditsMinor
  }

  // The comparison is proved for any key, injective or not.

  function Occurrences(keyOf: OpeningBalance -> string, entries: seq<OpeningBalance>, key: string): nat {
    if entries == [] then 0
    else Occurrences(keyOf, entries[..|entries| - 1], key) + (if keyOf(entries[|entries| - 1]) == key then 1 else 0)
  }

  /** The entry a map keyed by `OpeningKey` would hold. */
  function Last(keyOf: OpeningBalance -> string, entries: seq<OpeningBalance>, key: string): (entry: Option<OpeningBalance>)
    ensures entry.Some? ==> entry.value in entries && keyOf(entry.value) == key
    ensures entry.Some? <==> Occurrences(keyOf, entries, key) > 0
  {
    if entries == [] then None
    else if keyOf(entries[|entries| - 1]) == key then Some(entries[|entries| - 1])
    else Last(keyOf, entries[..|entries| - 1], key)
  }

  /** What is wrong under one key, if anything. */
  function Classify(keyOf: OpeningBalance -> string, source: seq<OpeningBalance>, target: seq<OpeningBalance>, key: string): Option<MismatchKind> {
    if Occurrences(keyOf, source, key) > 1 || Occurrences(keyOf, target, key) > 1 then Some(Duplicate)
    else
      match (Last(keyOf, source, key), Last(keyOf, target, key))
      case (None, _) => Some(MissingSource)
      case (Some(_), None) => Some(MissingTarget)
      case (Some(s), Some(t)) =>
        if !ValidAmounts(s) || !ValidAmounts(t) then Some(InvalidAmount)
        else if !SameFields(s, t) then Some(FieldMismatch) else None
  }

  predicate HasKey(keyOf: OpeningBalance -> string, entries: seq<OpeningBalance>, key: string) {
    Occurrences(keyOf, entries, key) > 0
  }

  ghost predicate NoMismatch(keyOf: OpeningBalance -> string, source: seq<OpeningBalance>, target: seq<OpeningBalance>) {
    forall key :: HasKey(keyOf, source, key) || HasKey(keyOf, target, key) ==> Classify(keyOf, source, target, key).None?
  }

  // ----- what no mismatch means

  ghost predicate DistinctKeys(keyOf: OpeningBalance -> string, entries: seq<OpeningBalance>) {
    forall i, j | 0 <= i < j < |entries| :: keyOf(entries[i]) != keyOf(entries[j])
  }

  /** Valid amounts and a counterpart with the same fields on the other side. */
  ghost predicate HasCounterpart(entry: OpeningBalance, others: seq<OpeningBalance>) {
    ValidAmounts(entry) && exists other :: other in others && SameFields(entry, other)
  }

  /** A one-to-one match: no key twice on either side, and every entry has its counterpart. */
  ghost predicate Matched(keyOf: OpeningBalance -> string, source: seq<OpeningBalance>, target: seq<OpeningBalance>) {
    && DistinctKeys(keyOf, source) && DistinctKeys(keyOf, target)
    && (forall entry | entry in source :: HasCounterpart(entry, target))
    && (forall entry | entry in target :: HasCounterpart(entry, source))
  }

  /** Entries with the same fields have the same key. */
  ghost predicate Respects(keyOf: OpeningBalance -> string) {
    forall left, right | SameFields(left, right) :: keyOf(left) == keyOf(right)
  }

  lemma OpeningKeyRespects()
    ensures Respects(OpeningKey)
  {
  }

  lemma {:induction false} OccursWhereHeld(keyOf: OpeningBalance -> string, entries: seq<OpeningBalance>, i: nat)
    requires i < |entries|
    ensures Occurrences(keyOf, entries, keyOf(entries[i])) >= 1
  {
    if i < |entries| - 1 { OccursWhereHeld(keyOf, entries[..|entries| - 1], i); }
  }

  lemma {:induction false} OccursTwice(keyOf: OpeningBalance -> string, entries: seq<OpeningBalance>, i: nat, j: nat)
    requires i < j < |entries| && keyOf(entries[i]) == keyOf(entries[j])
    ensures Occurrences(keyOf, entries, keyOf(entries[i])) >= 2
  {
    if j < |entries| - 1 { OccursTwice(keyOf, entries[..|entries| - 1], i, j); } else { OccursWhereHeld(keyOf, entries[..|entries| - 1], i); }
  }

  /** With no key twice, the entry under a key is the only one. */
  lemma LastIsOnly(keyOf: OpeningBalance -> string, entries: seq<OpeningBalance>, entry: OpeningBalance)
    requires entry in entries && Occurrences(keyOf, entries, keyOf(entry)) <= 1
    ensures Last(keyOf, entries, keyOf(entry)) == Some(entry)
  {
    var i :| 0 <= i < |entries| && entries[i] == entry;
    OccursWhereHeld(keyOf, entries, i);
    var last := Last(keyOf, entries, keyOf(entry)).value;
    var j :| 0 <= j < |entries| && entries[j] == last;
    if i < j { OccursTwice(keyOf, entries, i, j); }
    if j < i { OccursTwice(keyOf, entries, j, i); }
  }

  lemma {:induction false} HeldTwice(keyOf: OpeningBalance -> string, entries: seq<OpeningBalance>, key: string) returns (i: nat, j: nat)
    requires Occurrences(keyOf, entries, key) >= 2
    ensures i < j < |entries| && keyOf(entries[i]) == keyOf(entries[j]) == key
  {
    var init := entries[..|entries| - 1];
    if Occurrences(keyOf, init, key) >= 2 {
      i, j := HeldTwice(keyOf, init, key);
    } else {
      var first := Last(keyOf, init, key).value;
      i :| 0 <= i < |init| && init[i] == first;
      j := |entries| - 1;
    }
  }

  lemma DistinctOccursOnce(keyOf: OpeningBalance -> string, entries: seq<OpeningBalance>, key: string)
    requires DistinctKeys(keyOf, entries)
    ensures Occurrences(keyOf, entries, key) <= 1
  {
    if Occurrences(keyOf, entries, key) >= 2 {
      var i, j := HeldTwice(keyOf, entries, key);
    }
  }

  lemma CounterpartFound(keyOf: OpeningBalance -> string, source: seq<OpeningBalance>, target: seq<OpeningBalance>, entry: OpeningBalance)
    requires NoMismatch(keyOf, source, target) && (entry in source || entry in target)
    ensures entry in source ==> HasCounterpart(entry, target)
    ensures entry in target ==> HasCounterpart(entry, source)
  {
    var key := keyOf(entry);
    if entry in source {
      var i :| 0 <= i < |source| && source[i] == entry;
      OccursWhereHeld(keyOf, source, i);
      assert HasKey(keyOf, source, key) && Classify(keyOf, source, target, key).None?;
      LastIsOnly(keyOf, source, entry);
      assert SameFields(entry, Last(keyOf, target, key).value);
    }
    if entry in target {
      var i :| 0 <= i < |target| && target[i] == entry;
      OccursWhereHeld(keyOf, target, i);
      assert HasKey(keyOf, target, key) && Classify(keyOf, source, target, key).None?;
      LastIsOnly(keyOf, target, entry);
      assert SameFields(entry, Last(keyOf, source, key).value);
    }
  }

  lemma NoMismatchDistinct(keyOf: OpeningBalance -> string, source: seq<OpeningBalance>, target: seq<OpeningBalance>)
    requires NoMismatch(keyOf, source, target)
    ensures DistinctKeys(keyOf, source) && DistinctKeys(keyOf, target)
  {
    forall i, j | 0 <= i < j < |source| ensures keyOf(source[i]) != keyOf(source[j]) {
      OccursWhereHeld(keyOf, source, i);
      assert HasKey(keyOf, source, keyOf(source[i])) && Classify(keyOf, source, target, keyOf(source[i])).None?;
      if keyOf(source[i]) == keyOf(source[j]) { OccursTwice(keyOf, source, i, j); }
    }
    forall i, j | 0 <= i < j < |target| ensures keyOf(target[i]) != keyOf(target[j]) {
      OccursWhereHeld(keyOf, target, i);
      assert HasKey(keyOf, target, keyOf(target[i])) && Classify(keyOf, source, target, keyOf(target[i])).None?;
      if keyOf(target[i]) == keyOf(target[j]) { OccursTwice(keyOf, target, i, j); }
    }
  }

  lemma MatchedClassifies(keyOf: OpeningBalance -> string, source: seq<OpeningBalance>, target: seq<OpeningBalance>, key: string)
    requires Respects(keyOf) && Matched(keyOf, source, target) && HasKey(keyOf, source, key)
    ensures HasKey(keyOf, target, key) && Classify(keyOf, source, target, key).None?
  {
    DistinctOccursOnce(keyOf, source, key);
    DistinctOccursOnce(keyOf, target, key);
    var entry := Last(keyOf, source, key).value;
    assert HasCounterpart(entry, target);
    var other :| other in target && SameFields(entry, other);
    assert keyOf(entry) == keyOf(other);
    LastIsOnly(keyOf, target, other);
    var j :| 0 <= j < |target| && target[j] == other;
    OccursWhereHeld(keyOf, target, j);
  }

  lemma MatchedFlips(keyOf: OpeningBalance -> string, source: seq<OpeningBalance>, target: seq<OpeningBalance>, key: string)
    requires Respects(keyOf) && Matched(keyOf, source, target) && HasKey(keyOf, target, key)
    ensures HasKey(keyOf, source, key)
  {
    assert Matched(keyOf, target, source);
    MatchedClassifies(keyOf, target, source, key);
  }

  /** No mismatch is exactly a one-to-one match of entries with equal fields, the currency's case aside. */
  lemma NoMismatchIffMatched(keyOf: OpeningBalance -> string, source: seq<OpeningBalance>, target: seq<OpeningBalance>)
    requires Respects(keyOf)
    ensures NoMismatch(keyOf, source, target) <==> Matched(keyOf, source, target)
  {
    if NoMismatch(keyOf, source, target) {
      NoMismatchDistinct(keyOf, source, target);
      forall entry | entry in source ensures HasCounterpart(entry, target) { CounterpartFound(keyOf, source, target, entry); }
      forall entry | entry in target ensures HasCounterpart(entry, source) { CounterpartFound(keyOf, source, target, entry); }
    }
    if Matched(keyOf, source, target) {
      forall key | HasKey(keyOf, source, key) || HasKey(keyOf, target, key) ensures Classify(keyOf, source, target, key).None? {
        if HasKey(keyOf, target, key) { MatchedFlips(keyOf, source, target, key); }
        MatchedClassifies(keyOf, source, target, key);
      }
    }
  }

  /** Two entries of one side share the key. */
  ghost predicate Twice(keyOf: OpeningBalance -> string, entries: seq<OpeningBalance>, key: string) {
    exists i, j :: 0 <= i < j < |entries| && keyOf(entries[i]) == key && keyOf(entries[j]) == key
  }

  /** Some entry has the key. */
  ghost predicate Holds(keyOf: OpeningBalance -> string, entries: seq<OpeningBalance>, key: string) {
    exists entry :: entry in entries && keyOf(entry) == key
  }

  lemma HoldsMeans(keyOf: OpeningBalance -> string, entries: seq<OpeningBalance>, key: string)
    ensures HasKey(keyOf, entries, key) <==> Holds(keyOf, entries, key)
    ensures Occurrences(keyOf, entries, key) > 1 <==> Twice(keyOf, entries, key)
  {
    if HasKey(keyOf, entries, key) { assert keyOf(Last(keyOf, entries, key).value) == key; }
    if entry :| entry in entries && keyOf(entry) == key {
      var i :| 0 <= i < |entries| && entries[i] == entry;
      OccursWhereHeld(keyOf, entries, i);
    }
    if Occurrences(keyOf, entries, key) > 1 { var i, j := HeldTwice(keyOf, entries, key); }
    if i, j :| 0 <= i < j < |entries| && keyOf(entries[i]) == key && keyOf(entries[j]) == key { OccursTwice(keyOf, entries, i, j); }
  }

  /** What each kind of mismatch names: a key twice on a side, a side without it, an amount that is none, or a field that differs. */
  lemma MismatchMeans(keyOf: OpeningBalance -> string, source: seq<OpeningBalance>, target: seq<OpeningBalance>, key: string)
    requires Holds(keyOf, source, key) || Holds(keyOf, target, key)
    ensures var found := Classify(keyOf, source, target, key);
      var twice := Twice(keyOf, source, key) || Twice(keyOf, target, key);
      && (found == Some(Duplicate) <==> twice)
      && (found == Some(MissingSource) <==> !twice && !Holds(keyOf, source, key))
      && (found == Some(MissingTarget) <==> !twice && !Holds(keyOf, target, key))
      && (found == Some(FieldMismatch) ==> exists s, t ::
            s in source && t in target && keyOf(s) == keyOf(t) == key && ValidAmounts(s) && ValidAmounts(t) && !SameFields(s, t))
      && (found == Some(InvalidAmount) ==> exists s, t ::
            s in source && t in target && keyOf(s) == keyOf(t) == key && (!ValidAmounts(s) || !ValidAmounts(t)))
      && (found == None ==> exists s, t ::
            s in source && t in target && keyOf(s) == keyOf(t) == key && ValidAmounts(s) && ValidAmounts(t) && SameFields(s, t))
  {
    HoldsMeans(keyOf, source, key);
    HoldsMeans(keyOf, target, key);
    var s, t := Last(keyOf, source, key), Last(keyOf, target, key);
    assert s.Some? ==> s.value in source && keyOf(s.value) == key;
    assert t.Some? ==> t.value in target && keyOf(t.value) == key;
  }

  // ----- totals

  function TotalDebits(entries: seq<OpeningBalance>): nat {
    if entries == [] then 0 else TotalDebits(entries[..|entries| - 1]) + Debits(entries[|entries| - 1])
  }

  function TotalCredits(entries: seq<OpeningBalance>): nat {
    if entries == [] then 0 else TotalCredits(entries[..|entries| - 1]) + Credits(entries[|entries| - 1])
  }

  /** What the totals see of an entry. */
  datatype Posting = Posting(key: string, debits: nat, credits: nat)

  function PostingOf(keyOf: OpeningBalance -> string, entry: OpeningBalance): Posting {
    Posting(keyOf(entry), Debits(entry), Credits(entry))
  }

  function Postings(keyOf: OpeningBalance -> string, entries: seq<OpeningBalance>): seq<Posting> {
    seq(|entries|, i requires 0 <= i < |entries| => PostingOf(keyOf, entries[i]))
  }

  function SumDebits(postings: seq<Posting>): nat {
    if postings == [] then 0 else SumDebits(postings[..|postings| - 1]) + postings[|postings| - 1].debits
  }

  function SumCredits(postings: seq<Posting>): nat {
    if postings == [] then 0 else SumCredits(postings[..|postings| - 1]) + postings[|postings| - 1].credits
  }

  lemma {:induction false} TotalsOfPostings(keyOf: OpeningBalance -> string, entries: seq<OpeningBalance>)
    ensures TotalDebits(entries) == SumDebits(Postings(keyOf, entries))
    ensures TotalCredits(entries) == SumCredits(Postings(keyOf, entries))
  {
    if entries != [] {
      TotalsOfPostings(keyOf, entries[..|entries| - 1]);
      assert Postings(keyOf, entries)[..|entries| - 1] == Postings(keyOf, entries[..|entries| - 1]);
    }
  }

  lemma {:induction false} SumsConcat(left: seq<Posting>, right: seq<Posting>)
    ensures SumDebits(left + right) == SumDebits(left) + SumDebits(right)
    ensures SumCredits(left + right) == SumCredits(left) + SumCredits(right)
    decreases |right|
  {
    if right == [] {
      assert left + right == left;
    } else {
      SumsConcat(left, right[..|right| - 1]);
      assert (left + right)[..|left + right| - 1] == left + right[..|right| - 1];
    }
  }

  lemma SumOfOne(posting: Posting)
    ensures SumDebits([posting]) == posting.debits && SumCredits([posting]) == posting.credits
  {
    assert [posting][..0] == [];
  }

  lemma SumsAround(before: seq<Posting>, posting: Posting, after: seq<Posting>)
    ensures SumDebits(before + ([posting] + after)) == SumDebits(before + after) + posting.debits
    ensures SumCredits(before + ([posting] + after)) == SumCredits(before + after) + posting.credits
  {
    SumsConcat(before, [posting] + after);
    SumsConcat([posting], after);
    SumsConcat(before, after);
    SumOfOne(posting);
  }

  lemma TakeOut(postings: seq<Posting>, posting: Posting) returns (before: seq<Posting>, after: seq<Posting>)
    requires posting in postings
    ensures postings == before + ([posting] + after) && multiset(before + after) == multiset(postings) - multiset{posting}
  {
    var k :| 0 <= k < |postings| && postings[k] == posting;
    before, after := postings[..k], postings[k + 1..];
    assert postings == before + ([posting] + after);
  }

  lemma {:induction false} SumsIgnoreOrder(left: seq<Posting>, right: seq<Posting>)
    requires multiset(left) == multiset(right)
    ensures SumDebits(left) == SumDebits(right) && SumCredits(left) == SumCredits(right)
    decreases |left|
  {
    if left == [] {
      assert |multiset(right)| == 0;
    } else {
      var posting := left[0];
      assert posting in multiset(right);
      var leftBefore, leftAfter := TakeOut(left, posting);
      var rightBefore, rightAfter := TakeOut(right, posting);
      SumsAround(leftBefore, posting, leftAfter);
      SumsAround(rightBefore, posting, rightAfter);
      SumsIgnoreOrder(leftBefore + leftAfter, rightBefore + rightAfter);
    }
  }

  ghost predicate DistinctPostings(postings: seq<Posting>) {
    forall i, j | 0 <= i < j < |postings| :: postings[i].key != postings[j].key
  }

  lemma {:induction false} DistinctMultiset(postings: seq<Posting>)
    requires DistinctPostings(postings)
    ensures forall posting :: multiset(postings)[posting] == if posting in postings then 1 else 0
  {
    if postings != [] {
      var init, last := postings[..|postings| - 1], postings[|postings| - 1];
      DistinctMultiset(init);
      assert postings == init + [last];
      assert last !in init;
    }
  }

  lemma MatchedPostings(keyOf: OpeningBalance -> string, left: seq<OpeningBalance>, right: seq<OpeningBalance>)
    requires Respects(keyOf) && forall entry | entry in left :: HasCounterpart(entry, right)
    ensures forall posting | posting in Postings(keyOf, left) :: posting in Postings(keyOf, right)
  {
    forall posting | posting in Postings(keyOf, left) ensures posting in Postings(keyOf, right) {
      var i :| 0 <= i < |left| && PostingOf(keyOf, left[i]) == posting;
      assert HasCounterpart(left[i], right);
      var other :| other in right && SameFields(left[i], other);
      var j :| 0 <= j < |right| && right[j] == other;
      assert Postings(keyOf, right)[j] == posting;
    }
  }

  /** Matched sides have equal totals, so the total check never decides. */
  lemma MatchedTotals(keyOf: OpeningBalance -> string, source: seq<OpeningBalance>, target: seq<OpeningBalance>)
    requires Respects(keyOf) && Matched(keyOf, source, target)
    ensures TotalDebits(source) == TotalDebits(target) && TotalCredits(source) == TotalCredits(target)
  {
    var left, right := Postings(keyOf, source), Postings(keyOf, target);
    MatchedPostings(keyOf, source, target);
    MatchedPostings(keyOf, target, source);
    DistinctMultiset(left);
    DistinctMultiset(right);
    assert multiset(left) == multiset(right);
    SumsIgnoreOrder(left, right);
    TotalsOfPostings(keyOf, source);
    TotalsOfPostings(keyOf, target);
  }

  // ----- the verification

  method CountKeys(keyOf: OpeningBalance -> string, entries: seq<OpeningBalance>) returns (byKey: map<string, OpeningBalance>, counts: map<string, nat>)
    ensures forall key :: (key in byKey <==> HasKey(keyOf, entries, key)) && (key in byKey ==> Last(keyOf, entries, key) == Some(byKey[key]))
    ensures forall key :: (key in counts <==> HasKey(keyOf, entries, key)) && (key in counts ==> counts[key] == Occurrences(keyOf, entries, key))
  {
    byKey, counts := map[], map[];
    for i := 0 to |entries|
      invariant forall key :: (key in byKey <==> HasKey(keyOf, entries[..i], key)) && (key in byKey ==> Last(keyOf, entries[..i], key) == Some(byKey[key]))
      invariant forall key :: (key in counts <==> HasKey(keyOf, entries[..i], key)) && (key in counts ==> counts[key] == Occurrences(keyOf, entries[..i], key))
    {
      var key := keyOf(entries[i]);
      assert entries[..i + 1][..i] == entries[..i];
      byKey := byKey[key := entries[i]];
      counts := counts[key := (if key in counts then counts[key] else 0) + 1];
    }
    assert entries[..|entries|] == entries;
  }

  method SumEntries(entries: seq<OpeningBalance>) returns (debits: nat, credits: nat)
    ensures debits == TotalDebits(entries) && credits == TotalCredits(entries)
  {
    debits, credits := 0, 0;
    for i := 0 to |entries|
      invariant debits == TotalDebits(entries[..i]) && credits == TotalCredits(entries[..i])
    {
      assert entries[..i + 1][..i] == entries[..i];
      debits, credits := debits + Debits(entries[i]), credits + Credits(entries[i]);
    }
    assert entries[..|entries|] == entries;
  }

  /** Every mismatched key with what is wrong under it, and the verdict. */
  method VerifyOpeningBalances(source: seq<OpeningBalance>, target: seq<OpeningBalance>)
    returns (ok: bool, mismatches: map<string, MismatchKind>)
    ensures forall key :: key in mismatches <==> (HasKey(OpeningKey, source, key) || HasKey(OpeningKey, target, key)) && Classify(OpeningKey, source, target, key).Some?
    ensures forall key | key in mismatches :: Classify(OpeningKey, source, target, key) == Some(mismatches[key])
    ensures ok <==> mismatches == map[]
    ensures ok <==> Matched(OpeningKey, source, target)
  {
    OpeningKeyRespects();
    var sourceByKey, sourceCounts := CountKeys(OpeningKey, source);
    var targetByKey, targetCounts := CountKeys(OpeningKey, target);
    mismatches := CompareKeys(OpeningKey, source, target, sourceByKey, sourceCounts, targetByKey, targetCounts);
    var sourceDebits, sourceCredits := SumEntries(source);
    var targetDebits, targetCredits := SumEntries(target);
    NoMismatchIffMatched(OpeningKey, source, target);
    assert mismatches == map[] <==> NoMismatch(OpeningKey, source, target) by { EmptyIffNone(OpeningKey, source, target, mismatches); }
    if mismatches == map[] { MatchedTotals(OpeningKey, source, target); }
    ok := mismatches == map[] && sourceDebits == targetDebits && sourceCredits == targetCredits;
  }

  lemma EmptyIffNone(keyOf: OpeningBalance -> string, source: seq<OpeningBalance>, target: seq<OpeningBalance>, mismatches: map<string, MismatchKind>)
    requires forall key :: key in mismatches <==> (HasKey(keyOf, source, key) || HasKey(keyOf, target, key)) && Classify(keyOf, source, target, key).Some?
    ensures mismatches == map[] <==> NoMismatch(keyOf, source, target)
  {
    if NoMismatch(keyOf, source, target) {
      assert forall key :: key !in mismatches;
    }
  }

  method CompareKeys(keyOf: OpeningBalance -> string, ghost source: seq<OpeningBalance>, ghost target: seq<OpeningBalance>,
                     sourceByKey: map<string, OpeningBalance>, sourceCounts: map<string, nat>,
                     targetByKey: map<string, OpeningBalance>, targetCounts: map<string, nat>)
    returns (mismatches: map<string, MismatchKind>)
    requires forall key :: (key in sourceByKey <==> HasKey(keyOf, source, key)) && (key in sourceByKey ==> Last(keyOf, source, key) == Some(sourceByKey[key]))
    requires forall key :: (key in targetByKey <==> HasKey(keyOf, target, key)) && (key in targetByKey ==> Last(keyOf, target, key) == Some(targetByKey[key]))
    requires forall key :: (key in sourceCounts <==> HasKey(keyOf, source, key)) && (key in sourceCounts ==> sourceCounts[key] == Occurrences(keyOf, source, key))
    requires forall key :: (key in targetCounts <==> HasKey(keyOf, target, key)) && (key in targetCounts ==> targetCounts[key] == Occurrences(keyOf, target, key))
    ensures forall key :: key in mismatches <==> (HasKey(keyOf, source, key) || HasKey(keyOf, target, key)) && Classify(keyOf, source, target, key).Some?
    ensures forall key | key in mismatches :: Classify(keyOf, source, target, key) == Some(mismatches[key])
  {
    mismatches := map[];
    var keys := sourceByKey.Keys + targetByKey.Keys;
    var todo := keys;
    while todo != {}
      invariant todo <= keys
      invariant forall key :: key in mismatches <==> key in keys && key !in todo && Classify(keyOf, source, target, key).Some?
      invariant forall key | key in mismatches :: Classify(keyOf, source, target, key) == Some(mismatches[key])
      decreases todo
    {
      var key :| key in todo;
      todo := todo - {key};
      var found := CompareKey(keyOf, source, target, key, sourceByKey, sourceCounts, targetByKey, targetCounts);
      if found.Some? { mismatches := mismatches[key := found.value]; }
    }
  }

  /** One key: duplicates first, then missing sides, then amounts, then fields. */
  method CompareKey(keyOf: OpeningBalance -> string, ghost source: seq<OpeningBalance>, ghost target: seq<OpeningBalance>, key: string,
                    sourceByKey: map<string, OpeningBalance>, sourceCounts: map<string, nat>,
                    targetByKey: map<string, OpeningBalance>, targetCounts: map<string, nat>)
    returns (found: Option<MismatchKind>)
    requires (key in sourceByKey <==> HasKey(keyOf, source, key)) && (key in sourceByKey ==> Last(keyOf, source, key) == Some(sourceByKey[key]))
    requires (key in targetByKey <==> HasKey(keyOf, target, key)) && (key in targetByKey ==> Last(keyOf, target, key) == Some(targetByKey[key]))
    requires (key in sourceCounts <==> HasKey(keyOf, source, key)) && (key in sourceCounts ==> sourceCounts[key] == Occurrences(keyOf, source, key))
    requires (key in targetCounts <==> HasKey(keyOf, target, key)) && (key in targetCounts ==> targetCounts[key] == Occurrences(keyOf, target, key))
    ensures found == Classify(keyOf, source, target, key)
  {
    if (key in sourceCounts && sourceCounts[key] > 1) || (key in targetCounts && targetCounts[key] > 1) { return Some(Duplicate); }
    if key !in sourceByKey { return Some(MissingSource); }
    if key !in targetByKey { return Some(MissingTarget); }
    var s, t := sourceByKey[key], targetByKey[key];
    if !ValidAmounts(s) || !ValidAmounts(t) { return Some(InvalidAmount); }
    return if SameFields(s, t) then None else Some(FieldMismatch);
  }
}
