/** The migration of encrypted columns from one key namespace to another.

    Encryption is symbolic: a stored text is either plain, or the sealed form of a text under a key, which only this key
    opens. A sealed form may itself have been encrypted again, so what is sealed is a stored text. */
module CryptoMigration {
  import opened Wrappers
  import opened TextSplit

  type Key = nat
  type Nonce = nat
  type RowId = nat

  datatype Text =
    | Plain(chars: string)
    | Sealed(key: Key, nonce: Nonce, content: Text)

  /** A row of an encrypted column; the value may be NULL. */
  datatype Row = Row(id: RowId, value: Option<Text>)

  datatype Summary = Summary(total: nat, migrated: nat, alreadyTarget: nat, plaintextEncrypted: nat)

  datatype Error = MisconfiguredKeys | Unreadable(column: nat, id: RowId)

  datatype Result = Ok(summaries: seq<Summary>) | Failed(error: Error)

  // ----- single values

  predicate IsHexDigit(c: char) {
    '0' <= c <= '9' || 'a' <= c <= 'f' || 'A' <= c <= 'F'
  }

  predicate IsHex(text: string) {
    text != "" && forall i | 0 <= i < |text| :: IsHexDigit(text[i])
  }

  /** Three non-empty hexadecimal parts. The third part of a sealed text is its ciphertext, which is empty when the
      sealed text is. */
  predicate IsEncryptedValue(value: Text) {
    match value
    case Plain(chars) =>
      var parts := Split(chars, ':');
      |parts| == 3 && IsHex(parts[0]) && IsHex(parts[1]) && IsHex(parts[2])
    case Sealed(_, _, content) => content != Plain("")
  }

  lemma HexHasNoColon(text: string)
    requires IsHex(text)
    ensures ':' !in text
  {
  }

  /** A plain text passes for an encrypted one exactly if it is three hexadecimal texts with colons between them. */
  lemma LooksEncryptedExactly(chars: string)
    ensures IsEncryptedValue(Plain(chars)) <==>
            exists a, b, c :: IsHex(a) && IsHex(b) && IsHex(c) && chars == Join([a, b, c], ':')
  {
    hide IsHex, Split, Join;
    var parts := Split(chars, ':');
    JoinOfSplit(chars, ':');
    if |parts| == 3 {
      assert parts == [parts[0], parts[1], parts[2]];
    }
    if a, b, c :| IsHex(a) && IsHex(b) && IsHex(c) && chars == Join([a, b, c], ':') {
      HexHasNoColon(a);
      HexHasNoColon(b);
      HexHasNoColon(c);
      SplitOfJoin([a, b, c], ':');
    }
  }

  /** The three parts are written one behind the other. */
  lemma JoinOfThree(a: string, b: string, c: string)
    ensures Join([a, b, c], ':') == a + ":" + b + ":" + c
  {
    JoinBehind([a, b], c, ':');
    JoinBehind([a], b, ':');
    assert [a, b] + [c] == [a, b, c] && [a] + [b] == [a, b];
  }

  function Encrypt(text: Text, key: Key, nonce: Nonce): Text {
    Sealed(key, nonce, text)
  }

  function TryDecrypt(value: Text, key: Key): Option<Text> {
    if value.Sealed? && value.key == key then Some(value.content) else None
  }

  predicate CanDecrypt(value: Text, key: Key) {
    TryDecrypt(value, key).Some?
  }

  datatype Resolution = Keep | Replace(text: Text) | Unresolved

  function ResolveTargetCiphertext(value: Text, source: Key, target: Key, nonce: Nonce): Resolution {
    if CanDecrypt(value, target) then Keep
    else if !IsEncryptedValue(value) then Replace(Encrypt(value, target, nonce))
    else if TryDecrypt(value, source).None? then Unresolved
    else Replace(Encrypt(TryDecrypt(value, source).value, target, nonce))
  }

  // ----- what a value means

  /** What the application reads in a stored value while both namespaces are known: sealed texts are opened, other texts
      are taken as they are. A value that looks encrypted but is not is unreadable. */
  function Meaning(value: Text, source: Key, target: Key): Option<Text> {
    if CanDecrypt(value, target) then TryDecrypt(value, target)
    else if CanDecrypt(value, source) then TryDecrypt(value, source)
    else if value.Plain? && !IsEncryptedValue(value) then Some(value)
    else None
  }

  /** The empty text, sealed under another key than the target's. */
  predicate IsEmptySealedElsewhere(value: Text, target: Key) {
    value.Sealed? && value.key != target && value.content == Plain("")
  }

  /** The migration cannot make anything of the value. */
  predicate IsUnreadable(value: Text, source: Key, target: Key) {
    IsEncryptedValue(value) && !CanDecrypt(value, source) && !CanDecrypt(value, target)
  }

  /** How a value may look after the migration. */
  ghost predicate IsMigrated(before: Text, after: Text, source: Key, target: Key) {
    if CanDecrypt(before, target) then after == before
    else exists nonce :: ResolveTargetCiphertext(before, source, target, nonce) == Replace(after)
  }

  /** The migration leaves a value that the target key opens to its earlier meaning, but for the empty text sealed under
      another key: that is taken for a plain text and sealed once more. */
  lemma MeaningIsKept(before: Text, after: Text, source: Key, target: Key)
    requires source != target && IsMigrated(before, after, source, target)
    ensures CanDecrypt(after, target)
    ensures TryDecrypt(after, target) == Meaning(before, source, target) <==> !IsEmptySealedElsewhere(before, target)
    ensures IsEmptySealedElsewhere(before, target) ==> TryDecrypt(after, target) == Some(before)
  {
  }

  /** An empty source secret comes out as the text of its own ciphertext. */
  lemma EmptySecretIsLost(source: Key, target: Key, nonce: Nonce, newNonce: Nonce)
    requires source != target
    ensures var before := Sealed(source, nonce, Plain(""));
            var resolution := ResolveTargetCiphertext(before, source, target, newNonce);
            && Meaning(before, source, target) == Some(Plain(""))
            && resolution == Replace(Sealed(target, newNonce, before))
            && Meaning(resolution.text, source, target) == Some(before)
  {
  }

  // ----- columns

  predicate DistinctIds(rows: seq<Row>) {
    forall i, j | 0 <= i < j < |rows| :: rows[i].id != rows[j].id
  }

  /** The row counts for the summary: it has a value. */
  function Stored(row: Row): nat {
    if row.value.Some? then 1 else 0
  }

  function AlreadyTarget(row: Row, target: Key): nat {
    if row.value.Some? && CanDecrypt(row.value.value, target) then 1 else 0
  }

  function PlaintextEncrypted(row: Row, target: Key): nat {
    if row.value.Some? && !CanDecrypt(row.value.value, target) && !IsEncryptedValue(row.value.value) then 1 else 0
  }

  function Count(rows: seq<Row>, target: Key): Summary {
    if rows == [] then Summary(0, 0, 0, 0)
    else
      var n := |rows| - 1;
      var before, row := Count(rows[..n], target), rows[n];
      var already, plain := AlreadyTarget(row, target), PlaintextEncrypted(row, target);
      Summary(before.total + Stored(row), before.migrated + (Stored(row) - already - plain),
              before.alreadyTarget + already, before.plaintextEncrypted + plain)
  }

  /** The three counters sum up to the total. */
  lemma {:induction false} CountersSumUp(rows: seq<Row>, target: Key)
    ensures var summary := Count(rows, target);
            summary.migrated + summary.alreadyTarget + summary.plaintextEncrypted == summary.total
  {
    if rows != [] {
      CountersSumUp(rows[..|rows| - 1], target);
    }
  }

  /** The rows that are counted as such. */
  function Already(rows: seq<Row>, target: Key): set<nat> {
    set i | 0 <= i < |rows| && rows[i].value.Some? && CanDecrypt(rows[i].value.value, target)
  }

  function PlainTexts(rows: seq<Row>, target: Key): set<nat> {
    set i | 0 <= i < |rows| && rows[i].value.Some? && !CanDecrypt(rows[i].value.value, target)
            && !IsEncryptedValue(rows[i].value.value)
  }

  function Foreign(rows: seq<Row>, target: Key): set<nat> {
    set i | 0 <= i < |rows| && rows[i].value.Some? && !CanDecrypt(rows[i].value.value, target)
            && IsEncryptedValue(rows[i].value.value)
  }

  lemma NextRows(rows: seq<Row>, target: Key)
    requires rows != []
    ensures var n := |rows| - 1;
            && (forall i | 0 <= i < n :: rows[..n][i] == rows[i])
            && Already(rows, target) ==
               Already(rows[..n], target) + (if AlreadyTarget(rows[n], target) == 1 then {n} else {})
            && PlainTexts(rows, target) ==
               PlainTexts(rows[..n], target) + (if PlaintextEncrypted(rows[n], target) == 1 then {n} else {})
            && Foreign(rows, target) ==
               Foreign(rows[..n], target)
               + (if Stored(rows[n]) > AlreadyTarget(rows[n], target) + PlaintextEncrypted(rows[n], target) then {n}
                  else {})
  {
    hide IsEncryptedValue, CanDecrypt;
    var n := |rows| - 1;
    assert forall i | 0 <= i < n :: rows[..n][i] == rows[i];
  }

  /** The counters tell how many values were under the target key, how many were no encrypted values, and how many were
      encrypted values under another key. */
  lemma {:induction false} CountersMean(rows: seq<Row>, target: Key)
    ensures var summary := Count(rows, target);
            && summary.alreadyTarget == |Already(rows, target)|
            && summary.plaintextEncrypted == |PlainTexts(rows, target)|
            && summary.migrated == |Foreign(rows, target)|
    decreases |rows|
  {
    hide Already, PlainTexts, Foreign, AlreadyTarget, PlaintextEncrypted, Stored;
    if rows == [] {
      NothingCounted(target);
    } else {
      var n := |rows| - 1;
      CountersMean(rows[..n], target);
      NextRows(rows, target);
      NewPlaces(rows[..n], target);
      CountedOnce(rows[n], target);
    }
  }

  lemma NothingCounted(target: Key)
    ensures Already([], target) == PlainTexts([], target) == Foreign([], target) == {}
  {
  }

  lemma NewPlaces(rows: seq<Row>, target: Key)
    ensures |rows| !in Already(rows, target) && |rows| !in PlainTexts(rows, target) && |rows| !in Foreign(rows, target)
  {
  }

  lemma CountedOnce(row: Row, target: Key)
    ensures AlreadyTarget(row, target) + PlaintextEncrypted(row, target) <= Stored(row) <= 1
  {
    hide IsEncryptedValue, CanDecrypt;
  }

  predicate IsUnreadableRow(row: Row, source: Key, target: Key) {
    row.value.Some? && IsUnreadable(row.value.value, source, target)
  }

  predicate AllReadable(rows: seq<Row>, source: Key, target: Key) {
    forall i | 0 <= i < |rows| :: !IsUnreadableRow(rows[i], source, target)
  }

  ghost predicate RowMigrated(before: Row, after: Row, source: Key, target: Key) {
    && after.id == before.id
    && (before.value.None? ==> after.value.None?)
    && (before.value.Some? ==> after.value.Some? && IsMigrated(before.value.value, after.value.value, source, target))
  }

  ghost predicate ColumnMigrated(before: seq<Row>, after: seq<Row>, source: Key, target: Key) {
    && |after| == |before|
    && forall i | 0 <= i < |before| :: RowMigrated(before[i], after[i], source, target)
  }

  /** Migrated rows have nothing left to migrate. */
  lemma {:induction false} MigratedRowsAreTarget(before: seq<Row>, after: seq<Row>, source: Key, target: Key)
    requires source != target && ColumnMigrated(before, after, source, target)
    ensures AllReadable(after, source, target)
    ensures Count(after, target) == Summary(Count(before, target).total, 0, Count(before, target).total, 0)
    decreases |before|
  {
    hide RowMigrated, IsUnreadableRow, Stored, AlreadyTarget, PlaintextEncrypted;
    if before != [] {
      var n := |before| - 1;
      MigratedRowsAreTarget(before[..n], after[..n], source, target);
      RowIsTarget(before[n], after[n], source, target);
      assert after == after[..n] + [after[n]];
    }
  }

  lemma RowIsTarget(before: Row, after: Row, source: Key, target: Key)
    requires source != target && RowMigrated(before, after, source, target)
    ensures Stored(after) == Stored(before) == AlreadyTarget(after, target)
    ensures PlaintextEncrypted(after, target) == 0
    ensures !IsUnreadableRow(after, source, target)
  {
  }

  /** A second migration changes no row. */
  lemma SecondRunChangesNothing(first: seq<Row>, second: seq<Row>, third: seq<Row>, source: Key, target: Key)
    requires source != target
    requires ColumnMigrated(first, second, source, target) && ColumnMigrated(second, third, source, target)
    ensures third == second
  {
    forall i | 0 <= i < |second|
      ensures third[i] == second[i]
    {
      assert RowMigrated(first[i], second[i], source, target) && RowMigrated(second[i], third[i], source, target);
    }
  }

  // ----- the migration

  /** The tables that hold the encrypted columns. Their rows are in the order of their ids; reads and writes happen
      inside one transaction, or outside any for a dry run. */
  class Database {
    var columns: seq<seq<Row>>

    ghost predicate Valid()
      reads this
    {
      forall c | 0 <= c < |columns| :: DistinctIds(columns[c])
    }

    constructor (columns: seq<seq<Row>>)
      ensures this.columns == columns
    {
      this.columns := columns;
    }

    /** UPDATE ... WHERE id = ... */
    method UpdateEncryptedRow(column: nat, id: RowId, value: Text)
      requires column < |columns|
      modifies this
      ensures |columns| == |old(columns)|
      ensures forall c | 0 <= c < |columns| && c != column :: columns[c] == old(columns)[c]
      ensures |columns[column]| == |old(columns)[column]|
      ensures forall i | 0 <= i < |columns[column]| ::
                columns[column][i] ==
                  if old(columns)[column][i].id == id then Row(id, Some(value)) else old(columns)[column][i]
    {
      var rows := columns[column];
      var updated :=
        seq(|rows|, i requires 0 <= i < |rows| => if rows[i].id == id then Row(id, Some(value)) else rows[i]);
      columns := columns[column := updated];
    }
  }

  /** The rows before index i are migrated, the others as they were. */
  ghost predicate Partly(before: seq<Row>, now: seq<Row>, i: nat, source: Key, target: Key, dryRun: bool)
    requires i <= |before|
  {
    && |now| == |before|
    && (forall k | 0 <= k < i && !dryRun :: RowMigrated(before[k], now[k], source, target))
    && (forall k | 0 <= k < |before| && (dryRun || i <= k) :: now[k] == before[k])
  }

  lemma PartlyNext(before: seq<Row>, now: seq<Row>, now': seq<Row>, i: nat, source: Key, target: Key, dryRun: bool)
    requires i < |before| && DistinctIds(before) && Partly(before, now, i, source, target, dryRun)
    requires |now'| == |now|
    requires forall k | 0 <= k < |now| && now[k].id != before[i].id :: now'[k] == now[k]
    requires if dryRun then now'[i] == now[i] else RowMigrated(before[i], now'[i], source, target)
    ensures Partly(before, now', i + 1, source, target, dryRun)
  {
    forall k | 0 <= k < |before| && k != i
      ensures now'[k] == now[k]
    {
      if k < i && !dryRun {
        assert RowMigrated(before[k], now[k], source, target);
      }
      assert now[k].id == before[k].id;
    }
  }

  lemma PartlyKeepsIds(before: seq<Row>, now: seq<Row>, i: nat, source: Key, target: Key, dryRun: bool)
    requires i <= |before| && Partly(before, now, i, source, target, dryRun)
    ensures forall k | 0 <= k < |before| :: now[k].id == before[k].id
  {
    forall k | 0 <= k < |before|
      ensures now[k].id == before[k].id
    {
      if k < i && !dryRun {
        assert RowMigrated(before[k], now[k], source, target);
      }
    }
  }

  lemma CountNext(rows: seq<Row>, target: Key, i: nat)
    requires i < |rows|
    ensures var before, row := Count(rows[..i], target), rows[i];
            var already, plain := AlreadyTarget(row, target), PlaintextEncrypted(row, target);
            Count(rows[..i + 1], target) ==
              Summary(before.total + Stored(row), before.migrated + (Stored(row) - already - plain),
                      before.alreadyTarget + already, before.plaintextEncrypted + plain)
  {
    assert rows[..i + 1][..i] == rows[..i];
  }

  lemma ResolutionMeaning(value: Text, source: Key, target: Key, nonce: Nonce)
    ensures var resolution := ResolveTargetCiphertext(value, source, target, nonce);
            && (resolution.Keep? <==> CanDecrypt(value, target))
            && (resolution.Unresolved? <==> IsUnreadable(value, source, target))
            && (resolution.Keep? ==> IsMigrated(value, value, source, target))
            && (resolution.Replace? ==> IsMigrated(value, resolution.text, source, target))
  {
  }

  /** The body of the loop over a column's rows. None means that the row cannot be resolved. */
  method MigrateRow(db: Database, c: nat, i: nat, source: Key, target: Key, dryRun: bool, nonce: Nonce,
                    ghost before: seq<Row>, summary: Summary)
    returns (next: Option<Summary>)
    requires c < |db.columns| && i < |before| && DistinctIds(before) && summary == Count(before[..i], target)
    requires Partly(before, db.columns[c], i, source, target, dryRun)
    modifies db
    ensures next.None? <==> IsUnreadableRow(before[i], source, target)
    ensures |db.columns| == |old(db.columns)|
    ensures forall k | 0 <= k < |db.columns| && k != c :: db.columns[k] == old(db.columns)[k]
    ensures dryRun || next.None? ==> db.columns == old(db.columns)
    ensures next.Some? ==>
              next.value == Count(before[..i + 1], target)
                && Partly(before, db.columns[c], i + 1, source, target, dryRun)
  {
    hide Count, ResolveTargetCiphertext, IsMigrated, IsEncryptedValue, CanDecrypt;
    ghost var was := db.columns[c];
    var row := db.columns[c][i];
    CountNext(before, target, i);
    PartlyKeepsIds(before, was, i, source, target, dryRun);
    if row.value.None? {
      PartlyNext(before, was, was, i, source, target, dryRun);
      return Some(summary);
    }
    var value := row.value.value;
    ResolutionMeaning(value, source, target, nonce);
    var resolution := ResolveTargetCiphertext(value, source, target, nonce);
    if resolution.Unresolved? {
      return None;
    }
    var counted := summary.(total := summary.total + 1);
    if resolution.Keep? {
      PartlyNext(before, was, was, i, source, target, dryRun);
      return Some(counted.(alreadyTarget := summary.alreadyTarget + 1));
    }
    if !IsEncryptedValue(value) {
      next := Some(counted.(plaintextEncrypted := summary.plaintextEncrypted + 1));
    } else {
      next := Some(counted.(migrated := summary.migrated + 1));
    }
    if !dryRun {
      db.UpdateEncryptedRow(c, row.id, resolution.text);
    }
    PartlyNext(before, was, db.columns[c], i, source, target, dryRun);
  }

  datatype ColumnResult = Migrated(summary: Summary) | Stuck(id: RowId)

  /** The row with this id is the first one of the column that the migration can make nothing of. */
  ghost predicate IsFirstUnreadable(rows: seq<Row>, id: RowId, source: Key, target: Key) {
    exists i :: 0 <= i < |rows| && rows[i].id == id && IsUnreadableRow(rows[i], source, target)
      && forall k | 0 <= k < i :: !IsUnreadableRow(rows[k], source, target)
  }

  /** The error names the first such row of the first column that has one. */
  ghost predicate NamesFirstUnreadable(error: Error, columns: seq<seq<Row>>, source: Key, target: Key) {
    && error.Unreadable? && error.column < |columns|
    && IsFirstUnreadable(columns[error.column], error.id, source, target)
    && forall c | 0 <= c < error.column :: AllReadable(columns[c], source, target)
  }

  method MigrateColumn(db: Database, c: nat, source: Key, target: Key, dryRun: bool, nonces: nat -> Nonce)
    returns (result: ColumnResult)
    requires c < |db.columns| && DistinctIds(db.columns[c])
    modifies db
    ensures |db.columns| == |old(db.columns)|
    ensures forall k | 0 <= k < |db.columns| && k != c :: db.columns[k] == old(db.columns)[k]
    ensures dryRun ==> db.columns == old(db.columns)
    ensures result.Migrated? <==> AllReadable(old(db.columns)[c], source, target)
    ensures result.Stuck? ==> IsFirstUnreadable(old(db.columns)[c], result.id, source, target)
    ensures result.Migrated? ==>
              && result.summary == Count(old(db.columns)[c], target)
              && (!dryRun ==> ColumnMigrated(old(db.columns)[c], db.columns[c], source, target))
  {
    hide Count, RowMigrated, IsUnreadableRow;
    ghost var before := db.columns[c];
    var summary := Summary(0, 0, 0, 0);
    assert summary == Count(before[..0], target) by { CountNothing(target); }
    var n := |db.columns[c]|;
    for i := 0 to n
      invariant |db.columns| == |old(db.columns)|
      invariant forall k | 0 <= k < |db.columns| && k != c :: db.columns[k] == old(db.columns)[k]
      invariant dryRun ==> db.columns == old(db.columns)
      invariant Partly(before, db.columns[c], i, source, target, dryRun)
      invariant summary == Count(before[..i], target)
      invariant forall k | 0 <= k < i :: !IsUnreadableRow(before[k], source, target)
    {
      var id := db.columns[c][i].id;
      PartlyKeepsIds(before, db.columns[c], i, source, target, dryRun);
      var next := MigrateRow(db, c, i, source, target, dryRun, nonces(i), before, summary);
      if next.None? {
        return Stuck(id);
      }
      summary := next.value;
    }
    assert before[..n] == before;
    return Migrated(summary);
  }

  lemma CountNothing(target: Key)
    ensures Count([], target) == Summary(0, 0, 0, 0)
  {
  }

  /** The summaries of all columns. */
  function Summaries(columns: seq<seq<Row>>, target: Key): (summaries: seq<Summary>)
    ensures |summaries| == |columns|
  {
    seq(|columns|, c requires 0 <= c < |columns| => Count(columns[c], target))
  }

  predicate AllColumnsReadable(columns: seq<seq<Row>>, source: Key, target: Key) {
    forall c | 0 <= c < |columns| :: AllReadable(columns[c], source, target)
  }

  ghost predicate AllMigrated(before: seq<seq<Row>>, after: seq<seq<Row>>, source: Key, target: Key) {
    |after| == |before| && forall c | 0 <= c < |before| :: ColumnMigrated(before[c], after[c], source, target)
  }

  /** The row reads under the target key alone as it did before. */
  predicate RowKeepsMeaning(before: Row, after: Row, source: Key, target: Key) {
    && after.id == before.id
    && (after.value.Some? <==> before.value.Some?)
    && (before.value.Some? ==> TryDecrypt(after.value.value, target) == Meaning(before.value.value, source, target))
  }

  ghost predicate ColumnKeepsMeaning(before: seq<Row>, after: seq<Row>, source: Key, target: Key) {
    |after| == |before| && forall i | 0 <= i < |before| :: RowKeepsMeaning(before[i], after[i], source, target)
  }

  ghost predicate AllKeepMeaning(before: seq<seq<Row>>, after: seq<seq<Row>>, source: Key, target: Key) {
    |after| == |before| && forall c | 0 <= c < |before| :: ColumnKeepsMeaning(before[c], after[c], source, target)
  }

  /** The row holds an empty secret that is not under the target key yet. */
  predicate HasEmptySecret(row: Row, target: Key) {
    row.value.Some? && IsEmptySealedElsewhere(row.value.value, target)
  }

  predicate ColumnHasEmptySecret(rows: seq<Row>, target: Key) {
    exists i | 0 <= i < |rows| :: HasEmptySecret(rows[i], target)
  }

  predicate AnyEmptySecret(columns: seq<seq<Row>>, target: Key) {
    exists c | 0 <= c < |columns| :: ColumnHasEmptySecret(columns[c], target)
  }

  /** Every stored value is under the target key. */
  predicate AllUnder(columns: seq<seq<Row>>, target: Key) {
    forall c, i | 0 <= c < |columns| && 0 <= i < |columns[c]| ::
      columns[c][i].value.Some? ==> CanDecrypt(columns[c][i].value.value, target)
  }

  lemma RowMeaning(before: Row, after: Row, source: Key, target: Key)
    requires source != target && RowMigrated(before, after, source, target)
    ensures after.value.Some? ==> CanDecrypt(after.value.value, target)
    ensures RowKeepsMeaning(before, after, source, target) <==> !HasEmptySecret(before, target)
  {
    hide IsMigrated, IsEmptySealedElsewhere, Meaning;
    if before.value.Some? {
      MeaningIsKept(before.value.value, after.value.value, source, target);
    }
  }

  lemma ColumnMeaning(before: seq<Row>, after: seq<Row>, source: Key, target: Key)
    requires source != target && ColumnMigrated(before, after, source, target)
    ensures forall i | 0 <= i < |after| && after[i].value.Some? :: CanDecrypt(after[i].value.value, target)
    ensures ColumnKeepsMeaning(before, after, source, target) <==> !ColumnHasEmptySecret(before, target)
  {
    hide RowMigrated, RowKeepsMeaning, HasEmptySecret, CanDecrypt;
    forall i | 0 <= i < |before|
      ensures after[i].value.Some? ==> CanDecrypt(after[i].value.value, target)
      ensures RowKeepsMeaning(before[i], after[i], source, target) <==> !HasEmptySecret(before[i], target)
    {
      RowMeaning(before[i], after[i], source, target);
    }
  }

  /** After a migration the target key opens every value of every column, a missing value is still missing, and all rows
      mean what they meant exactly if no row held an empty secret under another key. */
  lemma AllRowsKeepMeaning(before: seq<seq<Row>>, after: seq<seq<Row>>, source: Key, target: Key)
    requires source != target && AllMigrated(before, after, source, target)
    ensures AllUnder(after, target)
    ensures AllKeepMeaning(before, after, source, target) <==> !AnyEmptySecret(before, target)
  {
    hide ColumnMigrated, ColumnKeepsMeaning, ColumnHasEmptySecret, CanDecrypt;
    forall c | 0 <= c < |before|
      ensures forall i | 0 <= i < |after[c]| && after[c][i].value.Some? :: CanDecrypt(after[c][i].value.value, target)
      ensures ColumnKeepsMeaning(before[c], after[c], source, target) <==> !ColumnHasEmptySecret(before[c], target)
    {
      ColumnMeaning(before[c], after[c], source, target);
    }
  }

  /** migrateEncryptedColumns. When it fails, some columns may have been written. */
  method MigrateEncryptedColumns(db: Database, source: Key, target: Key, dryRun: bool, nonces: nat -> nat -> Nonce)
    returns (result: Result)
    requires db.Valid()
    modifies db
    ensures dryRun ==> db.columns == old(db.columns)
    ensures result.Ok? <==> AllColumnsReadable(old(db.columns), source, target)
    ensures result.Failed? ==> NamesFirstUnreadable(result.error, old(db.columns), source, target)
    ensures result.Ok? ==>
              && result.summaries == Summaries(old(db.columns), target)
              && (!dryRun ==> AllMigrated(old(db.columns), db.columns, source, target))
  {
    hide AllReadable, ColumnMigrated, Count, IsFirstUnreadable;
    var summaries := [];
    var n := |db.columns|;
    for c := 0 to n
      invariant |db.columns| == n == |old(db.columns)| && |summaries| == c
      invariant dryRun ==> db.columns == old(db.columns)
      invariant forall k | 0 <= k < c :: AllReadable(old(db.columns)[k], source, target)
      invariant forall k | 0 <= k < c :: summaries[k] == Count(old(db.columns)[k], target)
      invariant forall k | 0 <= k < c && !dryRun :: ColumnMigrated(old(db.columns)[k], db.columns[k], source, target)
      invariant forall k | c <= k < n :: db.columns[k] == old(db.columns)[k]
    {
      var result := MigrateColumn(db, c, source, target, dryRun, nonces(c));
      if result.Stuck? {
        return Failed(Unreadable(c, result.id));
      }
      summaries := summaries + [result.summary];
    }
    assert summaries == Summaries(old(db.columns), target);
    return Ok(summaries);
  }

  /** The command: it checks the keys, and migrates inside a transaction unless it is a dry run. */
  method RunMigration(db: Database, configuredKey: Key, source: Key, target: Key, dryRun: bool,
                      nonces: nat -> nat -> Nonce)
    returns (result: Result)
    requires db.Valid()
    modifies db
    ensures result.Failed? || dryRun ==> db.columns == old(db.columns)
    ensures result.Ok? <==>
              configuredKey == target && source != target && AllColumnsReadable(old(db.columns), source, target)
    ensures result.Failed? ==>
              if configuredKey != target || source == target then result.error == MisconfiguredKeys
              else NamesFirstUnreadable(result.error, old(db.columns), source, target)
    ensures result.Ok? ==> result.summaries == Summaries(old(db.columns), target)
    ensures result.Ok? && !dryRun ==>
              && AllMigrated(old(db.columns), db.columns, source, target)
              && AllUnder(db.columns, target)
              && (AllKeepMeaning(old(db.columns), db.columns, source, target) <==>
                    !AnyEmptySecret(old(db.columns), target))
  {
    hide AllColumnsReadable, AllMigrated, AllUnder, AllKeepMeaning, AnyEmptySecret, NamesFirstUnreadable;
    if configuredKey != target || source == target {
      return Failed(MisconfiguredKeys);
    }
    var snapshot := db.columns;
    result := MigrateEncryptedColumns(db, source, target, dryRun, nonces);
    if result.Failed? && !dryRun {
      db.columns := snapshot;
    }
    if result.Ok? && !dryRun {
      AllRowsKeepMeaning(snapshot, db.columns, source, target);
    }
  }
}
