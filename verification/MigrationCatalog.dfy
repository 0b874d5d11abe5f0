/**
 The migration catalog is checked against itself and against the applied history: history must be a prefix.
 */
module MigrationCatalog {
  import opened Wrappers
  import opened StringOrder

  datatype Migration = Migration(name: string, hash: string, millis: int)

  datatype Applied = Applied(name: Option<string>, hash: string, createdAt: int)

  datatype CatalogError =
    | NoMigrations
    | InvalidName(name: string)
    | InvalidTimestamp(version: string)
    | DuplicateName(name: string)
    | DuplicateVersion(version: string)
    | NotStrictlyOrdered(name: string)
    | InvalidChecksum(name: string)
    | DuplicateApplied(name: string)
    | MissingLocally(name: string)
    | ChecksumChanged(name: string)
    | VersionChanged(name: string)
    | Reordered(name: string)
    | InsertedBefore(name: string)

  // ----- one migration

  predicate IsLowerOrDigit(c: char) {
    'a' <= c <= 'z' || '0' <= c <= '9'
  }

  /** Words of lower-case letters and digits, joined by single underscores. */
  predicate IsSlug(s: string) {
    && s != "" && s[0] != '_' && s[|s| - 1] != '_'
    && (forall i | 0 <= i < |s| :: IsLowerOrDigit(s[i]) || s[i] == '_')
    && (forall i | 0 < i < |s| :: s[i] == '_' ==> s[i - 1] != '_')
  }

  /** Fourteen digits, an underscore and a slug. */
  predicate IsName(name: string) {
    && |name| > 15 && (forall i | 0 <= i < 14 :: '0' <= name[i] <= '9') && name[14] == '_'
    && IsSlug(name[15..])
  }

  function Version(name: string): string
    requires IsName(name)
  {
    name[..14]
  }

  predicate IsChecksum(hash: string) {
    |hash| == 64 && forall i | 0 <= i < 64 :: 'a' <= hash[i] <= 'f' || '0' <= hash[i] <= '9'
  }

  /** `format` is the UTC rendering of a timestamp. */
  predicate WellFormed(migration: Migration, format: int -> string) {
    IsName(migration.name) && format(migration.millis) == Version(migration.name) && IsChecksum(migration.hash)
  }

  predicate Precedes(earlier: Migration, later: Migration) {
    Less(earlier.name, later.name) && earlier.millis < later.millis
  }

  /** Every migration is well formed, each precedes all that follow, and no version occurs twice. */
  ghost predicate CatalogFits(migrations: seq<Migration>, format: int -> string) {
    && migrations != []
    && (forall i | 0 <= i < |migrations| :: WellFormed(migrations[i], format))
    && (forall i, j | 0 <= i < j < |migrations| :: Precedes(migrations[i], migrations[j]))
    && (forall i, j | 0 <= i < j < |migrations| :: format(migrations[i].millis) != format(migrations[j].millis))
  }

  // ----- the applied history

  predicate Matches(applied: Applied, migration: Migration) {
    applied.name == Some(migration.name) && applied.hash == migration.hash && applied.createdAt == migration.millis
  }

  /** The applied migrations whose name was recorded. */
  function Named(applied: seq<Applied>): (named: seq<Applied>)
    ensures forall k | 0 <= k < |named| :: named[k].name.Some?
  {
    if applied == [] then []
    else Named(applied[..|applied| - 1])
         + (if applied[|applied| - 1].name.Some? then [applied[|applied| - 1]] else [])
  }

  /** Where a name stands in the catalog. */
  function Position(migrations: seq<Migration>, name: string): (position: Option<nat>)
    ensures position.Some? ==> position.value < |migrations| && migrations[position.value].name == name
    ensures position.None? ==> forall i | 0 <= i < |migrations| :: migrations[i].name != name
  {
    if migrations == [] then None
    else if migrations[|migrations| - 1].name == name then Some(|migrations| - 1)
    else Position(migrations[..|migrations| - 1], name)
  }

  function PositionOf(migrations: seq<Migration>, applied: Applied): Option<nat>
    requires applied.name.Some?
  {
    Position(migrations, applied.name.value)
  }

  /** Each recorded migration is in the catalog unchanged, and they were applied in catalog order. */
  ghost predicate HistoryFits(migrations: seq<Migration>, named: seq<Applied>) {
    && (forall k | 0 <= k < |named| :: named[k].name.Some?)
    && (forall k | 0 <= k < |named| :: PositionOf(migrations, named[k]).Some?
          && Matches(named[k], migrations[PositionOf(migrations, named[k]).value]))
    && (forall j, k | 0 <= j < k < |named| :: PositionOf(migrations, named[j]).value < PositionOf(migrations, named[k]).value)
  }

  /** No catalog entry up to the last applied one was skipped. */
  ghost predicate NothingInserted(migrations: seq<Migration>, named: seq<Applied>)
    requires HistoryFits(migrations, named)
  {
    named != [] ==> forall i | 0 <= i <= PositionOf(migrations, named[|named| - 1]).value ::
      exists k :: 0 <= k < |named| && named[k].name.value == migrations[i].name
  }

  ghost predicate Accepts(migrations: seq<Migration>, applied: seq<Applied>, format: int -> string) {
    && CatalogFits(migrations, format) && HistoryFits(migrations, Named(applied))
    && ((forall i | 0 <= i < |applied| :: applied[i].name.Some?) ==> NothingInserted(migrations, Named(applied)))
  }

  ghost predicate IsPrefix(applied: seq<Applied>, migrations: seq<Migration>) {
    |applied| <= |migrations| && forall i | 0 <= i < |applied| :: Matches(applied[i], migrations[i])
  }

  lemma {:induction false} AllNamed(applied: seq<Applied>)
    requires forall i | 0 <= i < |applied| :: applied[i].name.Some?
    ensures Named(applied) == applied
  {
    if applied != [] { AllNamed(applied[..|applied| - 1]); }
  }

  /** In a catalog that fits, a name stands in one place. */
  lemma PositionIs(migrations: seq<Migration>, format: int -> string, i: nat)
    requires CatalogFits(migrations, format) && i < |migrations|
    ensures Position(migrations, migrations[i].name) == Some(i)
  {
    forall j, k | 0 <= j < k < |migrations| ensures migrations[j].name != migrations[k].name {
      assert Precedes(migrations[j], migrations[k]);
    }
  }

  lemma {:induction false} PositionsStart(migrations: seq<Migration>, named: seq<Applied>, k: nat)
    requires HistoryFits(migrations, named) && k < |named|
    ensures PositionOf(migrations, named[k]).value >= k
  {
    if k > 0 { PositionsStart(migrations, named, k - 1); }
  }

  /** Without gaps, the k-th applied migration is the k-th of the catalog. */
  lemma {:induction false} NoGaps(migrations: seq<Migration>, format: int -> string, named: seq<Applied>, k: nat)
    requires CatalogFits(migrations, format) && HistoryFits(migrations, named) && NothingInserted(migrations, named)
    requires k < |named|
    ensures PositionOf(migrations, named[k]) == Some(k)
  {
    PositionsStart(migrations, named, k);
    if k < |named| - 1 {
      assert PositionOf(migrations, named[k]).value < PositionOf(migrations, named[|named| - 1]).value;
    }
    var j :| 0 <= j < |named| && named[j].name.value == migrations[k].name;
    PositionIs(migrations, format, k);
    if j < k { NoGaps(migrations, format, named, j); }
  }

  /** When every applied migration has its name, the catalog is accepted exactly when history is a prefix of it. */
  lemma AcceptsIffPrefix(migrations: seq<Migration>, applied: seq<Applied>, format: int -> string)
    requires forall i | 0 <= i < |applied| :: applied[i].name.Some?
    ensures Accepts(migrations, applied, format) <==> CatalogFits(migrations, format) && IsPrefix(applied, migrations)
  {
    AllNamed(applied);
    if Accepts(migrations, applied, format) {
      forall k | 0 <= k < |applied| ensures k < |migrations| && Matches(applied[k], migrations[k]) {
        NoGaps(migrations, format, applied, k);
      }
    } else if CatalogFits(migrations, format) && IsPrefix(applied, migrations) {
      PrefixFits(migrations, applied, format);
    }
  }

  lemma PrefixFits(migrations: seq<Migration>, applied: seq<Applied>, format: int -> string)
    requires CatalogFits(migrations, format) && IsPrefix(applied, migrations)
    ensures HistoryFits(migrations, applied) && NothingInserted(migrations, applied)
  {
    forall k | 0 <= k < |applied| ensures applied[k].name.Some? && PositionOf(migrations, applied[k]) == Some(k) {
      assert Matches(applied[k], migrations[k]);
      PositionIs(migrations, format, k);
    }
    forall i | 0 <= i < |applied| ensures applied[i].name.value == migrations[i].name {
      assert Matches(applied[i], migrations[i]);
    }
  }

  // ----- histories with unnamed entries

  /** History is a prefix as far as it can be told: every named entry is the catalog's at the same place. */
  ghost predicate IsOpenPrefix(applied: seq<Applied>, migrations: seq<Migration>) {
    && |applied| <= |migrations|
    && forall i | 0 <= i < |applied| && applied[i].name.Some? :: Matches(applied[i], migrations[i])
  }

  /** How many unnamed entries stand right before one. */
  function Skipped(applied: seq<Applied>, i: nat): (skipped: nat)
    requires i <= |applied|
    ensures skipped <= i
    ensures skipped < i ==> applied[i - skipped - 1].name.Some?
  {
    if i == 0 || applied[i - 1].name.Some? then 0 else Skipped(applied, i - 1) + 1
  }

  /** Where the last named entry before one stands in the catalog. */
  function PreviousIndex(migrations: seq<Migration>, applied: seq<Applied>, i: nat): int
    requires i <= |applied|
  {
    var previous := i - Skipped(applied, i) - 1;
    if previous < 0 then -1
    else match PositionOf(migrations, applied[previous])
      case Some(position) => position
      case None => -1
  }

  /** The catalog has as many entries between consecutive named ones as history has unnamed ones. */
  ghost predicate GapsFilled(migrations: seq<Migration>, applied: seq<Applied>) {
    && |applied| <= |migrations|
    && forall i {:trigger GapFilled(migrations, applied, i)} | 0 <= i < |applied| && applied[i].name.Some? ::
         GapFilled(migrations, applied, i)
  }

  predicate GapFilled(migrations: seq<Migration>, applied: seq<Applied>, i: nat)
    requires i < |applied| && applied[i].name.Some?
  {
    match PositionOf(migrations, applied[i])
    case Some(position) => position == PreviousIndex(migrations, applied, i) + Skipped(applied, i) + 1
    case None => false
  }

  /** Filled gaps put every named entry at its own place. */
  lemma {:induction false} FilledStandsAtOwnPlace(migrations: seq<Migration>, applied: seq<Applied>, i: nat)
    requires GapsFilled(migrations, applied) && i < |applied| && applied[i].name.Some?
    ensures PositionOf(migrations, applied[i]) == Some(i)
  {
    if Skipped(applied, i) < i { FilledStandsAtOwnPlace(migrations, applied, i - Skipped(applied, i) - 1); }
    assert GapFilled(migrations, applied, i);
    FilledFromPrevious(migrations, applied, i);
  }

  lemma FilledFromPrevious(migrations: seq<Migration>, applied: seq<Applied>, i: nat)
    requires i < |applied| && applied[i].name.Some?
    requires var j := i - Skipped(applied, i) - 1; j >= 0 ==> PositionOf(migrations, applied[j]) == Some(j)
    ensures GapFilled(migrations, applied, i) <==> PositionOf(migrations, applied[i]) == Some(i)
  {
  }

  lemma OpenPrefixStandsAtOwnPlace(migrations: seq<Migration>, applied: seq<Applied>, format: int -> string, i: nat)
    requires CatalogFits(migrations, format) && IsOpenPrefix(applied, migrations) && i < |applied| && applied[i].name.Some?
    ensures PositionOf(migrations, applied[i]) == Some(i)
  {
    assert Matches(applied[i], migrations[i]);
    PositionIs(migrations, format, i);
  }

  lemma OpenPrefixFillsGaps(migrations: seq<Migration>, applied: seq<Applied>, format: int -> string)
    requires CatalogFits(migrations, format) && IsOpenPrefix(applied, migrations)
    ensures GapsFilled(migrations, applied)
  {
    forall i | 0 <= i < |applied| && applied[i].name.Some? ensures PositionOf(migrations, applied[i]) == Some(i) {
      OpenPrefixStandsAtOwnPlace(migrations, applied, format, i);
    }
    OwnPlacesFillGaps(migrations, applied);
  }

  lemma OwnPlacesFillGaps(migrations: seq<Migration>, applied: seq<Applied>)
    requires |applied| <= |migrations|
    requires forall i | 0 <= i < |applied| && applied[i].name.Some? :: PositionOf(migrations, applied[i]) == Some(i)
    ensures GapsFilled(migrations, applied)
  {
    forall i | 0 <= i < |applied| && applied[i].name.Some? ensures GapFilled(migrations, applied, i) {
      FilledFromPrevious(migrations, applied, i);
    }
  }

  /** The named entries of an open prefix are in the catalog unchanged and in order. */
  lemma {:induction false} OpenPrefixFits(migrations: seq<Migration>, applied: seq<Applied>, format: int -> string)
    requires CatalogFits(migrations, format) && IsOpenPrefix(applied, migrations)
    ensures HistoryFits(migrations, Named(applied))
    ensures forall k | 0 <= k < |Named(applied)| :: PositionOf(migrations, Named(applied)[k]).value < |applied|
    decreases |applied|
  {
    if applied != [] {
      var init, last := applied[..|applied| - 1], applied[|applied| - 1];
      OpenPrefixFits(migrations, init, format);
      if last.name.Some? {
        OpenPrefixStandsAtOwnPlace(migrations, applied, format, |applied| - 1);
        HistoryGrows(migrations, Named(init), last, |applied| - 1);
      }
    }
  }

  lemma HistoryGrows(migrations: seq<Migration>, named: seq<Applied>, next: Applied, position: nat)
    requires HistoryFits(migrations, named) && next.name.Some? && PositionOf(migrations, next) == Some(position)
    requires Matches(next, migrations[position])
    requires forall k | 0 <= k < |named| :: PositionOf(migrations, named[k]).value < position
    ensures HistoryFits(migrations, named + [next])
  {
  }

  /** Where a named entry of an accepted history stands. */
  lemma {:induction false} NamedFits(migrations: seq<Migration>, applied: seq<Applied>, i: nat)
    requires HistoryFits(migrations, Named(applied)) && i < |applied| && applied[i].name.Some?
    ensures PositionOf(migrations, applied[i]).Some? && Matches(applied[i], migrations[PositionOf(migrations, applied[i]).value])
    decreases |applied|
  {
    var init, last := applied[..|applied| - 1], applied[|applied| - 1];
    if i < |applied| - 1 {
      assert HistoryFits(migrations, Named(init)) by { HistoryShrinks(migrations, Named(init), Named(applied)); }
      NamedFits(migrations, init, i);
    } else {
      assert Named(applied)[|Named(init)|] == last;
    }
  }

  lemma HistoryShrinks(migrations: seq<Migration>, fewer: seq<Applied>, more: seq<Applied>)
    requires HistoryFits(migrations, more) && fewer <= more
    ensures HistoryFits(migrations, fewer)
  {
    assert forall k | 0 <= k < |fewer| :: fewer[k] == more[k];
  }

  /**
   Whatever entries have no name: a well-formed catalog has history as its prefix, as far as that can be told, exactly
   when it is accepted and the unnamed entries of history are as many as the catalog entries they stand for.
   */
  lemma AcceptedIsPrefixIffFilled(migrations: seq<Migration>, applied: seq<Applied>, format: int -> string)
    ensures CatalogFits(migrations, format) && IsOpenPrefix(applied, migrations)
       <==> Accepts(migrations, applied, format) && GapsFilled(migrations, applied)
  {
    if CatalogFits(migrations, format) && IsOpenPrefix(applied, migrations) {
      OpenPrefixFillsGaps(migrations, applied, format);
      OpenPrefixFits(migrations, applied, format);
      if forall i | 0 <= i < |applied| :: applied[i].name.Some? {
        AllNamed(applied);
        PrefixFits(migrations, applied, format);
      }
    }
    if Accepts(migrations, applied, format) && GapsFilled(migrations, applied) {
      forall i | 0 <= i < |applied| && applied[i].name.Some? ensures Matches(applied[i], migrations[i]) {
        FilledStandsAtOwnPlace(migrations, applied, i);
        NamedFits(migrations, applied, i);
      }
    }
  }

  /**
   Once an applied migration has no name, acceptance does not need the gaps filled: of three or more migrations it is
   enough that one unnamed and the last have been applied, although the last stands behind at least two others.
   */
  lemma UnnamedHistoryMayHaveGaps(migrations: seq<Migration>, format: int -> string)
    requires CatalogFits(migrations, format) && |migrations| >= 3
    ensures var last := migrations[|migrations| - 1];
      var applied := [Applied(None, "", 0), Applied(Some(last.name), last.hash, last.millis)];
      && Accepts(migrations, applied, format) && !IsOpenPrefix(applied, migrations)
      && PositionOf(migrations, applied[1]) == Some(|migrations| - 1) && |applied| < |migrations|
  {
    var last := migrations[|migrations| - 1];
    var unnamed, named := Applied(None, "", 0), Applied(Some(last.name), last.hash, last.millis);
    assert [unnamed, named][..1] == [unnamed] && [unnamed][..0] == [];
    assert Named([unnamed]) == Named([]) + [];
    assert Named([unnamed, named]) == Named([unnamed]) + [named] == [named];
    PositionIs(migrations, format, |migrations| - 1);
    assert [unnamed, named][0].name.None?;
    PositionIs(migrations, format, 1);
    assert [unnamed, named][1] == named && !Matches(named, migrations[1]);
  }

  // ----- the loops

  /** The error names what is wrong with the `i`-th migration. */
  ghost predicate Offends(migrations: seq<Migration>, format: int -> string, i: nat, error: CatalogError)
    requires i < |migrations|
  {
    var migration := migrations[i];
    match error
    case InvalidName(name) => name == migration.name && !IsName(name)
    case InvalidTimestamp(version) => IsName(migration.name) && version == migration.name[..14] && format(migration.millis) != version
    case DuplicateName(name) => name == migration.name && exists k :: 0 <= k < i && migrations[k].name == name
    case DuplicateVersion(version) =>
      && version == format(migration.millis) && (forall k | 0 <= k < i :: migrations[k].name != migration.name)
      && exists k :: 0 <= k < i && format(migrations[k].millis) == version
    case NotStrictlyOrdered(name) =>
      && name == migration.name && i > 0
      && (!Less(migrations[i - 1].name, name) || migration.millis <= migrations[i - 1].millis)
    case InvalidChecksum(name) => name == migration.name && !IsChecksum(migration.hash)
    case _ => false
  }

  /** The first migration at fault: what comes before it is a catalog that fits. */
  ghost predicate FirstOffence(migrations: seq<Migration>, format: int -> string, error: CatalogError) {
    exists i: nat :: i < |migrations| && Offends(migrations, format, i, error) && (i > 0 ==> CatalogFits(migrations[..i], format))
  }

  /** The catalog checked in order, against the migration before and the versions seen. */
  method CheckCatalog(migrations: seq<Migration>, format: int -> string) returns (error: Option<CatalogError>)
    ensures error.None? <==> CatalogFits(migrations, format)
    ensures error == Some(NoMigrations) <==> migrations == []
    ensures error.Some? && migrations != [] ==> FirstOffence(migrations, format, error.value)
  {
    if |migrations| == 0 { return Some(NoMigrations); }
    var names: set<string>, versions: set<string> := {}, {};
    for i := 0 to |migrations|
      invariant names == set k | 0 <= k < i :: migrations[k].name
      invariant versions == set k | 0 <= k < i :: format(migrations[k].millis)
      invariant i > 0 ==> CatalogFits(migrations[..i], format)
    {
      var migration := migrations[i];
      if !IsName(migration.name) {
        assert Offends(migrations, format, i, InvalidName(migration.name));
        return Some(InvalidName(migration.name));
      }
      var version := Version(migration.name);
      if format(migration.millis) != version {
        assert Offends(migrations, format, i, InvalidTimestamp(version));
        return Some(InvalidTimestamp(version));
      }
      if migration.name in names {
        DuplicateBreaks(migrations, format, i);
        assert Offends(migrations, format, i, DuplicateName(migration.name));
        return Some(DuplicateName(migration.name));
      }
      if version in versions {
        DuplicateBreaks(migrations, format, i);
        assert Offends(migrations, format, i, DuplicateVersion(version));
        return Some(DuplicateVersion(version));
      }
      if i > 0 && (!Less(migrations[i - 1].name, migration.name) || migration.millis <= migrations[i - 1].millis) {
        assert !Precedes(migrations[i - 1], migrations[i]);
        assert Offends(migrations, format, i, NotStrictlyOrdered(migration.name));
        return Some(NotStrictlyOrdered(migration.name));
      }
      if !IsChecksum(migration.hash) {
        assert Offends(migrations, format, i, InvalidChecksum(migration.name));
        return Some(InvalidChecksum(migration.name));
      }
      names, versions := names + {migration.name}, versions + {version};
      CatalogExtends(migrations, format, i);
    }
    assert migrations[..|migrations|] == migrations;
    return None;
  }

  lemma DuplicateBreaks(migrations: seq<Migration>, format: int -> string, i: nat)
    requires i < |migrations|
    ensures (exists k | 0 <= k < i :: migrations[k].name == migrations[i].name) ==> !CatalogFits(migrations, format)
    ensures (exists k | 0 <= k < i :: format(migrations[k].millis) == format(migrations[i].millis)) ==> !CatalogFits(migrations, format)
  {
    if k :| 0 <= k < i && migrations[k].name == migrations[i].name {
      assert !Precedes(migrations[k], migrations[i]);
    }
  }

  lemma CatalogExtends(migrations: seq<Migration>, format: int -> string, i: nat)
    requires i < |migrations| && (i > 0 ==> CatalogFits(migrations[..i], format) && Precedes(migrations[i - 1], migrations[i]))
    requires WellFormed(migrations[i], format)
    requires forall k | 0 <= k < i :: format(migrations[k].millis) != format(migrations[i].millis)
    ensures CatalogFits(migrations[..i + 1], format)
  {
    var extended := migrations[..i + 1];
    forall j, k | 0 <= j < k < |extended| ensures Precedes(extended[j], extended[k]) {
      if k < i {
        assert Precedes(migrations[..i][j], migrations[..i][k]);
      } else if j < i - 1 {
        assert Precedes(migrations[..i][j], migrations[..i][i - 1]);
        LessTransitive(migrations[j].name, migrations[i - 1].name, migrations[i].name);
      }
    }
    forall j, k | 0 <= j < k < |extended| ensures format(extended[j].millis) != format(extended[k].millis) {
      if k < i { assert format(migrations[..i][j].millis) != format(migrations[..i][k].millis); }
    }
    forall j | 0 <= j < |extended| ensures WellFormed(extended[j], format) {
      if j < i { assert WellFormed(migrations[..i][j], format); }
    }
  }

  lemma {:induction false} NamedGrows(applied: seq<Applied>, i: nat)
    requires i <= |applied|
    ensures Named(applied[..i]) <= Named(applied)
    decreases |applied|
  {
    if i < |applied| {
      NamedGrows(applied[..|applied| - 1], i);
      assert applied[..|applied| - 1][..i] == applied[..i];
    } else {
      assert applied[..i] == applied;
    }
  }

  lemma NamedNext(applied: seq<Applied>, i: nat)
    requires i < |applied|
    ensures Named(applied[..i + 1]) == Named(applied[..i]) + (if applied[i].name.Some? then [applied[i]] else [])
  {
    assert applied[..i + 1][..i] == applied[..i];
  }

  /** What the loop knows of the history read so far. */
  ghost predicate Read(migrations: seq<Migration>, named: seq<Applied>, names: set<string>, previousIndex: int) {
    && HistoryFits(migrations, named)
    && (forall name :: name in names <==> exists k :: 0 <= k < |named| && named[k].name == Some(name))
    && previousIndex == if named == [] then -1 else PositionOf(migrations, named[|named| - 1]).value
  }

  lemma ReadNext(migrations: seq<Migration>, named: seq<Applied>, names: set<string>, previousIndex: int, next: Applied)
    requires Read(migrations, named, names, previousIndex) && next.name.Some?
    requires PositionOf(migrations, next).Some? && PositionOf(migrations, next).value > previousIndex
    requires Matches(next, migrations[PositionOf(migrations, next).value])
    ensures Read(migrations, named + [next], names + {next.name.value}, PositionOf(migrations, next).value)
  {
    var after := named + [next];
    forall j, k | 0 <= j < k < |after| ensures PositionOf(migrations, after[j]).value < PositionOf(migrations, after[k]).value {
      if k == |named| && j < |named| - 1 {
        assert PositionOf(migrations, named[j]).value < PositionOf(migrations, named[|named| - 1]).value;
      }
    }
    forall name ensures name in names + {next.name.value} <==> exists k :: 0 <= k < |after| && after[k].name == Some(name) {
      if name in names {
        var k :| 0 <= k < |named| && named[k].name == Some(name);
        assert after[k].name == Some(name);
      }
      assert after[|named|].name == next.name;
    }
  }

  /** The checks the next named entry must pass, all of which a fitting history passes. */
  lemma NextMustPass(migrations: seq<Migration>, named: seq<Applied>, names: set<string>, previousIndex: int, next: Applied, all: seq<Applied>)
    requires Read(migrations, named, names, previousIndex) && next.name.Some? && named + [next] <= all
    ensures HistoryFits(migrations, all) ==>
      && next.name.value !in names && PositionOf(migrations, next).Some?
      && Matches(next, migrations[PositionOf(migrations, next).value]) && PositionOf(migrations, next).value > previousIndex
  {
    if HistoryFits(migrations, all) {
      assert all[|named|] == next;
      assert forall k | 0 <= k < |named| :: all[k] == named[k];
      assert forall k | 0 <= k < |named| :: PositionOf(migrations, all[k]).value < PositionOf(migrations, all[|named|]).value;
    }
  }

  /** The error names what is wrong with the next applied migration, given the named ones before it. */
  ghost predicate AppliedOffends(migrations: seq<Migration>, earlier: seq<Applied>, next: Applied, error: CatalogError)
    requires next.name.Some?
  {
    var name := next.name.value;
    match error
    case DuplicateApplied(n) => n == name && exists k :: 0 <= k < |earlier| && earlier[k].name == Some(name)
    case MissingLocally(n) => n == name && forall i | 0 <= i < |migrations| :: migrations[i].name != name
    case ChecksumChanged(n) => n == name && exists i :: 0 <= i < |migrations| && migrations[i].name == name && migrations[i].hash != next.hash
    case VersionChanged(n) => n == name && exists i :: 0 <= i < |migrations| && migrations[i].name == name && migrations[i].millis != next.createdAt
    case Reordered(n) =>
      && n == name && earlier != [] && earlier[|earlier| - 1].name.Some?
      && exists i, j :: 0 <= i <= j < |migrations| && migrations[i].name == name && migrations[j].name == earlier[|earlier| - 1].name.value
    case _ => false
  }

  /** The first applied migration at fault: the named ones before it fit. */
  ghost predicate FirstAppliedOffence(migrations: seq<Migration>, applied: seq<Applied>, error: CatalogError) {
    exists i: nat :: i < |applied| && applied[i].name.Some? && HistoryFits(migrations, Named(applied[..i]))
                     && AppliedOffends(migrations, Named(applied[..i]), applied[i], error)
  }

  /** The first catalog entry, up to the last applied one, that was never applied. */
  ghost predicate FirstSkipped(migrations: seq<Migration>, named: seq<Applied>, error: CatalogError) {
    exists i: nat :: i < |migrations| && error == InsertedBefore(migrations[i].name)
      && (forall k | 0 <= k < |named| :: named[k].name != Some(migrations[i].name))
      && forall j | 0 <= j < i :: exists k :: 0 <= k < |named| && named[k].name == Some(migrations[j].name)
  }

  /** One applied migration with a name. */
  method CheckOne(migrations: seq<Migration>, ghost named: seq<Applied>, names: set<string>, previousIndex: int, migration: Applied)
    returns (error: Option<CatalogError>, position: int)
    requires Read(migrations, named, names, previousIndex) && migration.name.Some?
    ensures error.None? ==> Read(migrations, named + [migration], names + {migration.name.value}, position)
    ensures error.Some? ==> forall all | named + [migration] <= all :: !HistoryFits(migrations, all)
    ensures error.Some? ==> AppliedOffends(migrations, named, migration, error.value)
  {
    forall all | named + [migration] <= all
      ensures HistoryFits(migrations, all) ==>
        && migration.name.value !in names && PositionOf(migrations, migration).Some?
        && Matches(migration, migrations[PositionOf(migrations, migration).value])
        && PositionOf(migrations, migration).value > previousIndex
    {
      NextMustPass(migrations, named, names, previousIndex, migration, all);
    }
    var name := migration.name.value;
    var local := Position(migrations, name);
    position := previousIndex;
    if name in names { return Some(DuplicateApplied(name)), position; }
    if local.None? { return Some(MissingLocally(name)), position; }
    if migrations[local.value].hash != migration.hash { return Some(ChecksumChanged(name)), position; }
    if migrations[local.value].millis != migration.createdAt { return Some(VersionChanged(name)), position; }
    if local.value <= previousIndex { return Some(Reordered(name)), position; }
    ReadNext(migrations, named, names, previousIndex, migration);
    return None, local.value;
  }

  method CheckApplied(migrations: seq<Migration>, applied: seq<Applied>)
    returns (error: Option<CatalogError>, names: set<string>, previousIndex: int)
    ensures error.None? <==> HistoryFits(migrations, Named(applied))
    ensures error.None? ==> Read(migrations, Named(applied), names, previousIndex)
    ensures error.Some? ==> FirstAppliedOffence(migrations, applied, error.value)
  {
    error, names, previousIndex := None, {}, -1;
    for i := 0 to |applied|
      invariant error.None? && Read(migrations, Named(applied[..i]), names, previousIndex)
    {
      NamedNext(applied, i);
      NamedGrows(applied, i + 1);
      if applied[i].name.Some? {
        error, previousIndex := CheckOne(migrations, Named(applied[..i]), names, previousIndex, applied[i]);
        if error.Some? { return; }
        names := names + {applied[i].name.value};
      } else {
        assert Named(applied[..i + 1]) == Named(applied[..i]);
      }
    }
    assert applied[..|applied|] == applied;
  }

  method CheckNothingInserted(migrations: seq<Migration>, ghost named: seq<Applied>, names: set<string>, previousIndex: int)
    returns (error: Option<CatalogError>)
    requires Read(migrations, named, names, previousIndex)
    ensures error.None? <==> NothingInserted(migrations, named)
    ensures error.Some? ==> FirstSkipped(migrations, named, error.value)
  {
    for i := 0 to previousIndex + 1
      invariant forall k | 0 <= k < i :: migrations[k].name in names
    {
      if migrations[i].name !in names { return Some(InsertedBefore(migrations[i].name)); }
    }
    return None;
  }

  method SomeUnnamed(applied: seq<Applied>) returns (unnamed: bool)
    ensures unnamed <==> exists i :: 0 <= i < |applied| && applied[i].name.None?
  {
    for i := 0 to |applied|
      invariant forall k | 0 <= k < i :: applied[k].name.Some?
    {
      if applied[i].name.None? { return true; }
    }
    return false;
  }

  /** Accepts a catalog and its applied history, or names the first offence. */
  method ValidateMigrationCatalog(migrations: seq<Migration>, applied: seq<Applied>, format: int -> string)
    returns (error: Option<CatalogError>)
    ensures error.None? <==> Accepts(migrations, applied, format)
    ensures (forall i | 0 <= i < |applied| :: applied[i].name.Some?) ==>
      (error.None? <==> CatalogFits(migrations, format) && IsPrefix(applied, migrations))
    ensures error.None? && GapsFilled(migrations, applied) <==> CatalogFits(migrations, format) && IsOpenPrefix(applied, migrations)
    ensures error.Some? ==>
      if migrations == [] then error.value == NoMigrations
      else if !CatalogFits(migrations, format) then FirstOffence(migrations, format, error.value)
      else if !HistoryFits(migrations, Named(applied)) then FirstAppliedOffence(migrations, applied, error.value)
      else FirstSkipped(migrations, Named(applied), error.value)
  {
    AcceptedIsPrefixIffFilled(migrations, applied, format);
    error := CheckCatalog(migrations, format);
    if forall i | 0 <= i < |applied| :: applied[i].name.Some? { AcceptsIffPrefix(migrations, applied, format); }
    if error.Some? { return; }
    var names, previousIndex;
    error, names, previousIndex := CheckApplied(migrations, applied);
    if error.Some? { return; }
    var unnamed := SomeUnnamed(applied);
    if !unnamed { error := CheckNothingInserted(migrations, Named(applied), names, previousIndex); }
  }
}
