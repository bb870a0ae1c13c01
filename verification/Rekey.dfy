/** Rotating the custody secret: each sealed column moves from the old key to the new, in a
    migration that may stop anywhere and be run again. */
module Rekey {
  import opened Wrappers
  import opened Sealing

  /** A private key's row; public-only rows have nothing sealed. */
  datatype KeyRow = KeyRow(context: Bytes, sealed: Option<Bytes>)

  /** A subscription's row: the live signing secret, and the one before it mid-rotation. */
  datatype SecretRow = SecretRow(context: Bytes, sealed: Option<Bytes>, previous: Option<Bytes>)

  /** The two keys of a rotation. */
  datatype Keys = Keys(crypto: Crypto, old_: CustodyKey, new_: CustodyKey)

  ghost predicate Usable(z: Keys) {
    Lawful(z.crypto) && ValidKey(z.old_) && ValidKey(z.new_) && z.old_.keyId != z.new_.keyId
  }

  ghost predicate Random(entropy: nat -> Entropy) { forall k :: ValidEntropy(entropy(k)) }

  /** What the rotation finds in one sealed column. */
  datatype Finding = Current | Stranded | Opens(plaintext: Bytes) | Broken(error: SealingError)

  function FindingOf(z: Keys, blob: Bytes, found: Result<Bytes, SealingError>): Finding {
    var sealedWith := SealedKeyId(blob);
    if sealedWith == Some(z.new_.keyId) then Current
    else if sealedWith != Some(z.old_.keyId) then Stranded
    else if found.Success? then Opens(found.value) else Broken(found.error)
  }

  function KeyFinding(z: Keys, blob: Bytes, context: Bytes): Finding {
    FindingOf(z, blob, Open(z.crypto, z.old_, blob, context))
  }

  function SecretFinding(z: Keys, blob: Bytes, context: Bytes): Finding {
    FindingOf(z, blob, OpenAny(z.crypto, z.old_, blob, context))
  }

  /** The exception of a finding ends the run; sealing adds that nothing empty is sealed. */
  predicate Raises(f: Finding, dryRun: bool) { f.Broken? || (!dryRun && f == Opens("")) }

  // --- a row, before and after -----------------------------------------------------------

  function KeyAfter(z: Keys, row: KeyRow, e: Entropy): KeyRow {
    if row.sealed.None? then row
    else
      var f := KeyFinding(z, row.sealed.value, row.context);
      if f.Opens? && f.plaintext != ""
      then row.(sealed := Some(Seal(z.crypto, z.new_, f.plaintext, row.context, e).value)) else row
  }

  function SecretAfter(z: Keys, blob: Option<Bytes>, context: Bytes, e: Entropy): Option<Bytes> {
    if blob.None? then None
    else
      var f := SecretFinding(z, blob.value, context);
      if f.Opens? && f.plaintext != ""
      then Some(Wrap(z.crypto, z.new_, f.plaintext, context, e).value) else blob
  }

  predicate KeyRaises(z: Keys, row: KeyRow, dryRun: bool) {
    row.sealed.Some? && Raises(KeyFinding(z, row.sealed.value, row.context), dryRun)
  }

  predicate SecretRaises(z: Keys, row: SecretRow, dryRun: bool) {
    || (row.sealed.Some? && Raises(SecretFinding(z, row.sealed.value, row.context), dryRun))
    || (row.previous.Some? && Raises(SecretFinding(z, row.previous.value, row.context), dryRun))
  }

  /** Both columns of a subscription are replaced in one transaction. */
  function RowAfter(z: Keys, row: SecretRow, first: Entropy, second: Entropy): SecretRow {
    row.(sealed := SecretAfter(z, row.sealed, row.context, first),
         previous := SecretAfter(z, row.previous, row.context, second))
  }

  /** The rows of a run that stopped after `n` of them. */
  function KeysAfter(z: Keys, rows: seq<KeyRow>, entropy: nat -> Entropy, n: nat): seq<KeyRow> {
    seq(|rows|, k requires 0 <= k < |rows| => if k < n then KeyAfter(z, rows[k], entropy(k)) else rows[k])
  }

  function SecretsAfter(z: Keys, rows: seq<SecretRow>, entropy: nat -> Entropy, n: nat): seq<SecretRow> {
    seq(|rows|, k requires 0 <= k < |rows| =>
      if k < n then RowAfter(z, rows[k], entropy(2 * k), entropy(2 * k + 1)) else rows[k])
  }

  // --- what is counted ------------------------------------------------------------------

  /** The findings of a table, column by column. */
  function KeyFindings(z: Keys, rows: seq<KeyRow>): seq<Finding> {
    if rows == [] then [] else KeyFindings(z, rows[..|rows| - 1]) + RowFinding(z, rows[|rows| - 1])
  }

  function RowFinding(z: Keys, row: KeyRow): seq<Finding> {
    if row.sealed.Some? then [KeyFinding(z, row.sealed.value, row.context)] else []
  }

  function ColumnFinding(z: Keys, blob: Option<Bytes>, context: Bytes): seq<Finding> {
    if blob.Some? then [SecretFinding(z, blob.value, context)] else []
  }

  function SecretFindings(z: Keys, rows: seq<SecretRow>): seq<Finding> {
    if rows == [] then []
    else
      var row := rows[|rows| - 1];
      SecretFindings(z, rows[..|rows| - 1]) + ColumnFinding(z, row.sealed, row.context)
      + ColumnFinding(z, row.previous, row.context)
  }

  datatype Counts = Counts(moved: nat, current: nat, stranded: nat) {
    function Plus(other: Counts): Counts {
      Counts(moved + other.moved, current + other.current, stranded + other.stranded)
    }

    function Total(): nat { moved + current + stranded }
  }

  function CountOf(f: Finding): Counts {
    match f
    case Current => Counts(0, 1, 0)
    case Stranded => Counts(0, 0, 1)
    case Opens(_) => Counts(1, 0, 0)
    case Broken(_) => Counts(0, 0, 0)
  }

  function Tally(fs: seq<Finding>): Counts {
    if fs == [] then Counts(0, 0, 0) else Tally(fs[..|fs| - 1]).Plus(CountOf(fs[|fs| - 1]))
  }

  lemma {:induction false} TallyJoins(a: seq<Finding>, b: seq<Finding>)
    ensures Tally(a + b) == Tally(a).Plus(Tally(b))
    decreases |b|
  {
    if b == [] {
      assert a + b == a;
    } else {
      var front := b[..|b| - 1];
      assert (a + b)[..|a + b| - 1] == a + front;
      TallyJoins(a, front);
    }
  }

  lemma TallyOne(f: Finding)
    ensures Tally([f]) == CountOf(f)
  {
    assert [f][..0] == [];
  }

  /** One more row of a table: its part of the tally. */
  lemma KeyTallyStep(z: Keys, rows: seq<KeyRow>, k: nat)
    requires k < |rows|
    ensures Tally(KeyFindings(z, rows[..k + 1])) == Tally(KeyFindings(z, rows[..k])).Plus(Tally(RowFinding(z, rows[k])))
  {
    assert rows[..k + 1][..k] == rows[..k];
    TallyJoins(KeyFindings(z, rows[..k]), RowFinding(z, rows[k]));
  }

  lemma SecretTallyStep(z: Keys, rows: seq<SecretRow>, k: nat)
    requires k < |rows|
    ensures Tally(SecretFindings(z, rows[..k + 1])) ==
            Tally(SecretFindings(z, rows[..k]))
              .Plus(Tally(ColumnFinding(z, rows[k].sealed, rows[k].context)))
              .Plus(Tally(ColumnFinding(z, rows[k].previous, rows[k].context)))
  {
    assert rows[..k + 1][..k] == rows[..k];
    var live := ColumnFinding(z, rows[k].sealed, rows[k].context);
    TallyJoins(SecretFindings(z, rows[..k]), live);
    TallyJoins(SecretFindings(z, rows[..k]) + live, ColumnFinding(z, rows[k].previous, rows[k].context));
  }

  /** One more row of a table: its part of the rows written. */
  lemma KeysStep(z: Keys, rows: seq<KeyRow>, entropy: nat -> Entropy, k: nat)
    requires k < |rows|
    ensures KeysAfter(z, rows, entropy, k)[k := KeyAfter(z, rows[k], entropy(k))] == KeysAfter(z, rows, entropy, k + 1)
  {
  }

  lemma SecretsStep(z: Keys, rows: seq<SecretRow>, entropy: nat -> Entropy, k: nat)
    requires k < |rows|
    ensures SecretsAfter(z, rows, entropy, k)[k := RowAfter(z, rows[k], entropy(2 * k), entropy(2 * k + 1))]
            == SecretsAfter(z, rows, entropy, k + 1)
  {
  }

  /** Nothing is dropped and nothing counted twice: without an exception, moved, current and
      stranded add up to the number of sealed columns. */
  lemma {:induction false} CountsAddUp(fs: seq<Finding>)
    requires forall k | 0 <= k < |fs| :: !fs[k].Broken?
    ensures Tally(fs).Total() == |fs|
    decreases |fs|
  {
    if fs != [] { CountsAddUp(fs[..|fs| - 1]); }
  }

  lemma {:induction false} NothingStranded(fs: seq<Finding>)
    ensures Tally(fs).stranded == 0 <==> Stranded !in fs
    decreases |fs|
  {
    if fs != [] {
      var front := fs[..|fs| - 1];
      assert fs == front + [fs[|fs| - 1]];
      NothingStranded(front);
    }
  }

  // --- plaintexts -------------------------------------------------------------------------

  /** What the service reads from a sealed column, holding whichever of the two keys the
      envelope names. */
  function ReadKey(z: Keys, row: KeyRow): Result<Bytes, SealingError> {
    if row.sealed.None? then Failure(EmptyMaterial)
    else Open(z.crypto, KeyNamed(z, row.sealed.value), row.sealed.value, row.context)
  }

  function ReadSecret(z: Keys, blob: Option<Bytes>, context: Bytes): Result<Bytes, SealingError> {
    if blob.None? then Failure(EmptyMaterial)
    else OpenAny(z.crypto, KeyNamed(z, blob.value), blob.value, context)
  }

  function KeyNamed(z: Keys, blob: Bytes): CustodyKey {
    if SealedKeyId(blob) == Some(z.new_.keyId) then z.new_ else z.old_
  }

  /** The same secrets, row by row, read in the same contexts. */
  ghost predicate SameKeys(z: Keys, a: seq<KeyRow>, b: seq<KeyRow>) {
    |a| == |b| && forall k | 0 <= k < |a| :: a[k].context == b[k].context && ReadKey(z, a[k]) == ReadKey(z, b[k])
  }

  ghost predicate SameSecrets(z: Keys, a: seq<SecretRow>, b: seq<SecretRow>) {
    |a| == |b| && forall k | 0 <= k < |a| :: SameRow(z, a[k], b[k])
  }

  lemma KeyAfterReads(z: Keys, row: KeyRow, e: Entropy)
    requires Usable(z) && ValidEntropy(e)
    ensures ReadKey(z, KeyAfter(z, row, e)) == ReadKey(z, row)
    ensures KeyAfter(z, row, e) != row ==>
              KeyAfter(z, row, e).sealed.Some? && SealedKeyId(KeyAfter(z, row, e).sealed.value) == Some(z.new_.keyId)
  {
    if KeyAfter(z, row, e) != row {
      var f := KeyFinding(z, row.sealed.value, row.context);
      SealOpens(z.crypto, z.new_, f.plaintext, row.context, e, row.context + "x", z.old_);
    }
  }

  lemma SecretAfterReads(z: Keys, blob: Option<Bytes>, context: Bytes, e: Entropy)
    requires Usable(z) && ValidEntropy(e)
    ensures ReadSecret(z, SecretAfter(z, blob, context, e), context) == ReadSecret(z, blob, context)
    ensures SecretAfter(z, blob, context, e) != blob ==>
              SecretAfter(z, blob, context, e).Some?
              && SealedKeyId(SecretAfter(z, blob, context, e).value) == Some(z.new_.keyId)
  {
    if SecretAfter(z, blob, context, e) != blob {
      var f := SecretFinding(z, blob.value, context);
      WrapOpens(z.crypto, z.new_, f.plaintext, context, e, context + "x");
    }
  }

  /** One run, stopped after any number of rows of either table. */
  datatype Interrupted = Interrupted(keyRows: nat, secretRows: nat, keyEntropy: nat -> Entropy, secretEntropy: nat -> Entropy)

  function KeysAfterAll(z: Keys, rows: seq<KeyRow>, runs: seq<Interrupted>): seq<KeyRow>
    decreases |runs|
  {
    if runs == [] then rows
    else KeysAfterAll(z, KeysAfter(z, rows, runs[0].keyEntropy, runs[0].keyRows), runs[1..])
  }

  function SecretsAfterAll(z: Keys, rows: seq<SecretRow>, runs: seq<Interrupted>): seq<SecretRow>
    decreases |runs|
  {
    if runs == [] then rows
    else SecretsAfterAll(z, SecretsAfter(z, rows, runs[0].secretEntropy, runs[0].secretRows), runs[1..])
  }

  /** Interrupting a rotation after any row, and running it again any number of times, keeps
      what every sealed column holds in its own context. */
  lemma {:induction false} InterruptionsKeepSecrets(z: Keys, keys: seq<KeyRow>, secrets: seq<SecretRow>, runs: seq<Interrupted>)
    requires Usable(z) && forall r | r in runs :: Random(r.keyEntropy) && Random(r.secretEntropy)
    ensures SameKeys(z, keys, KeysAfterAll(z, keys, runs))
    ensures SameSecrets(z, secrets, SecretsAfterAll(z, secrets, runs))
    decreases |runs|
  {
    if runs != [] {
      var r := runs[0];
      var keys' := KeysAfter(z, keys, r.keyEntropy, r.keyRows);
      var secrets' := SecretsAfter(z, secrets, r.secretEntropy, r.secretRows);
      assert r in runs && forall q | q in runs[1..] :: q in runs;
      InterruptionsKeepSecrets(z, keys', secrets', runs[1..]);
      forall k | 0 <= k < |keys|
        ensures keys'[k].context == keys[k].context && ReadKey(z, keys'[k]) == ReadKey(z, keys[k])
      {
        KeyAfterReads(z, keys[k], r.keyEntropy(k));
      }
      OneRunKeepsSecrets(z, secrets, r);
    }
  }

  ghost predicate SameRow(z: Keys, a: SecretRow, b: SecretRow) {
    && a.context == b.context
    && ReadSecret(z, a.sealed, a.context) == ReadSecret(z, b.sealed, b.context)
    && ReadSecret(z, a.previous, a.context) == ReadSecret(z, b.previous, b.context)
  }

  lemma RowAfterReads(z: Keys, row: SecretRow, first: Entropy, second: Entropy)
    requires Usable(z) && ValidEntropy(first) && ValidEntropy(second)
    ensures SameRow(z, row, RowAfter(z, row, first, second))
  {
    SecretAfterReads(z, row.sealed, row.context, first);
    SecretAfterReads(z, row.previous, row.context, second);
  }

  lemma OneRunKeepsSecrets(z: Keys, secrets: seq<SecretRow>, r: Interrupted)
    requires Usable(z) && Random(r.secretEntropy)
    ensures SameSecrets(z, secrets, SecretsAfter(z, secrets, r.secretEntropy, r.secretRows))
  {
    forall k: nat | k < |secrets| ensures SameRow(z, secrets[k], SecretsAfter(z, secrets, r.secretEntropy, r.secretRows)[k]) {
      RowAfterReads(z, secrets[k], r.secretEntropy(2 * k), r.secretEntropy(2 * k + 1));
    }
  }

  // --- a finished run ---------------------------------------------------------------------

  ghost predicate NoKeyRaises(z: Keys, rows: seq<KeyRow>, n: nat, dryRun: bool)
    requires n <= |rows|
  {
    forall k | 0 <= k < n :: !KeyRaises(z, rows[k], dryRun)
  }

  ghost predicate NoSecretRaises(z: Keys, rows: seq<SecretRow>, n: nat, dryRun: bool)
    requires n <= |rows|
  {
    forall k | 0 <= k < n :: !SecretRaises(z, rows[k], dryRun)
  }

  /** The custody key ids the stored material names: what a survey lists, with `None` for
      an envelope nothing recognises. */
  function KeyIds(rows: seq<KeyRow>): set<Option<Bytes>> {
    set k | 0 <= k < |rows| && rows[k].sealed.Some? :: SealedKeyId(rows[k].sealed.value)
  }

  function SecretIds(rows: seq<SecretRow>): set<Option<Bytes>> {
    (set k | 0 <= k < |rows| && rows[k].sealed.Some? :: SealedKeyId(rows[k].sealed.value))
    + set k | 0 <= k < |rows| && rows[k].previous.Some? :: SealedKeyId(rows[k].previous.value)
  }

  /** After a finished row a column is either under the new key or stranded, as it was. */
  predicate Finished(z: Keys, blob: Option<Bytes>) { blob.Some? ==> SealedKeyId(blob.value) != Some(z.old_.keyId) }

  lemma FinishedKey(z: Keys, row: KeyRow, e: Entropy)
    requires Usable(z) && ValidEntropy(e) && !KeyRaises(z, row, false)
    ensures Finished(z, KeyAfter(z, row, e).sealed)
    ensures row.sealed.Some? ==>
              && KeyAfter(z, row, e).sealed.Some?
              && (SealedKeyId(KeyAfter(z, row, e).sealed.value) == Some(z.new_.keyId)
                  <==> KeyFinding(z, row.sealed.value, row.context) != Stranded)
  {
    KeyAfterReads(z, row, e);
  }

  lemma FinishedColumn(z: Keys, blob: Option<Bytes>, context: Bytes, e: Entropy)
    requires Usable(z) && ValidEntropy(e)
    requires blob.Some? ==> !Raises(SecretFinding(z, blob.value, context), false)
    ensures Finished(z, SecretAfter(z, blob, context, e))
    ensures blob.Some? ==>
              && SecretAfter(z, blob, context, e).Some?
              && (SealedKeyId(SecretAfter(z, blob, context, e).value) == Some(z.new_.keyId)
                  <==> SecretFinding(z, blob.value, context) != Stranded)
  {
    SecretAfterReads(z, blob, context, e);
  }

  /** What becomes of a private key is settled by the key id its envelope names: the new key's
      stays as it is, the old key's is sealed anew, and any other's stays and is reported. */
  lemma KeyByItsId(z: Keys, row: KeyRow, e: Entropy)
    requires Usable(z) && ValidEntropy(e) && row.sealed.Some? && !KeyRaises(z, row, false)
    ensures var id, after := SealedKeyId(row.sealed.value), KeyAfter(z, row, e);
            && after.sealed.Some? && after.context == row.context
            && (id != Some(z.old_.keyId) ==> after == row)
            && SealedKeyId(after.sealed.value) == (if id == Some(z.old_.keyId) then Some(z.new_.keyId) else id)
            && Tally(RowFinding(z, row)) == if id == Some(z.old_.keyId) then Counts(1, 0, 0)
                                            else if id == Some(z.new_.keyId) then Counts(0, 1, 0)
                                            else Counts(0, 0, 1)
  {
    FinishedKey(z, row, e);
    KeyAfterReads(z, row, e);
    TallyOne(KeyFinding(z, row.sealed.value, row.context));
  }

  /** So it is with a signing secret, in either column. */
  lemma SecretByItsId(z: Keys, blob: Bytes, context: Bytes, e: Entropy)
    requires Usable(z) && ValidEntropy(e) && !Raises(SecretFinding(z, blob, context), false)
    ensures var id, after := SealedKeyId(blob), SecretAfter(z, Some(blob), context, e);
            && after.Some?
            && (id != Some(z.old_.keyId) ==> after == Some(blob))
            && SealedKeyId(after.value) == (if id == Some(z.old_.keyId) then Some(z.new_.keyId) else id)
            && Tally(ColumnFinding(z, Some(blob), context)) == if id == Some(z.old_.keyId) then Counts(1, 0, 0)
                                                               else if id == Some(z.new_.keyId) then Counts(0, 1, 0)
                                                               else Counts(0, 0, 1)
  {
    FinishedColumn(z, Some(blob), context, e);
    SecretAfterReads(z, Some(blob), context, e);
    TallyOne(SecretFinding(z, blob, context));
  }

  lemma {:induction false} StrandedKeys(z: Keys, rows: seq<KeyRow>)
    ensures Stranded in KeyFindings(z, rows) <==>
            exists k :: 0 <= k < |rows| && rows[k].sealed.Some? && KeyFinding(z, rows[k].sealed.value, rows[k].context) == Stranded
    decreases |rows|
  {
    if rows != [] { StrandedKeys(z, rows[..|rows| - 1]); }
  }

  lemma {:induction false} StrandedSecrets(z: Keys, rows: seq<SecretRow>)
    ensures Stranded in SecretFindings(z, rows) <==>
            exists k :: 0 <= k < |rows| &&
              (Stranded in ColumnFinding(z, rows[k].sealed, rows[k].context)
               || Stranded in ColumnFinding(z, rows[k].previous, rows[k].context))
    decreases |rows|
  {
    if rows != [] { StrandedSecrets(z, rows[..|rows| - 1]); }
  }

  /** A finished run reports nothing stranded exactly when a survey afterwards names no key
      but the new one. */
  lemma CompleteWhenSurveyIsClean(z: Keys, keys: seq<KeyRow>, secrets: seq<SecretRow>, entropy: nat -> Entropy)
    requires Usable(z) && Random(entropy)
    requires NoKeyRaises(z, keys, |keys|, false) && NoSecretRaises(z, secrets, |secrets|, false)
    ensures var keys' := KeysAfter(z, keys, entropy, |keys|);
            var secrets' := SecretsAfter(z, secrets, entropy, |secrets|);
            Stranded !in KeyFindings(z, keys) + SecretFindings(z, secrets) <==>
              KeyIds(keys') + SecretIds(secrets') <= {Some(z.new_.keyId)}
  {
    StrandedKeys(z, keys);
    StrandedSecrets(z, secrets);
    CleanKeys(z, keys, entropy);
    CleanSecrets(z, secrets, entropy);
  }

  lemma CleanKeys(z: Keys, keys: seq<KeyRow>, entropy: nat -> Entropy)
    requires Usable(z) && Random(entropy) && NoKeyRaises(z, keys, |keys|, false)
    ensures KeyIds(KeysAfter(z, keys, entropy, |keys|)) <= {Some(z.new_.keyId)} <==>
            forall k | 0 <= k < |keys| && keys[k].sealed.Some? :: KeyFinding(z, keys[k].sealed.value, keys[k].context) != Stranded
  {
    var keys' := KeysAfter(z, keys, entropy, |keys|);
    forall k: nat | k < |keys| && keys[k].sealed.Some?
      ensures keys'[k].sealed.Some? && SealedKeyId(keys'[k].sealed.value) in KeyIds(keys')
      ensures SealedKeyId(keys'[k].sealed.value) == Some(z.new_.keyId)
              <==> KeyFinding(z, keys[k].sealed.value, keys[k].context) != Stranded
    {
      FinishedKey(z, keys[k], entropy(k));
    }
  }

  /** Empty, or sealed under the new key. */
  predicate UnderNewKey(z: Keys, blob: Option<Bytes>) { blob.Some? ==> SealedKeyId(blob.value) == Some(z.new_.keyId) }

  lemma NewColumn(z: Keys, blob: Option<Bytes>, context: Bytes, e: Entropy)
    requires Usable(z) && ValidEntropy(e)
    requires blob.Some? ==> !Raises(SecretFinding(z, blob.value, context), false)
    ensures UnderNewKey(z, SecretAfter(z, blob, context, e)) <==> Stranded !in ColumnFinding(z, blob, context)
  {
    FinishedColumn(z, blob, context, e);
  }

  lemma OnlyTheNewId(z: Keys, rows: seq<SecretRow>)
    ensures SecretIds(rows) <= {Some(z.new_.keyId)} <==>
            forall k | 0 <= k < |rows| :: UnderNewKey(z, rows[k].sealed) && UnderNewKey(z, rows[k].previous)
  {
    if SecretIds(rows) <= {Some(z.new_.keyId)} {
      forall k | 0 <= k < |rows| ensures UnderNewKey(z, rows[k].sealed) && UnderNewKey(z, rows[k].previous) {
        assert rows[k].sealed.Some? ==> SealedKeyId(rows[k].sealed.value) in SecretIds(rows);
        assert rows[k].previous.Some? ==> SealedKeyId(rows[k].previous.value) in SecretIds(rows);
      }
    }
  }

  lemma CleanSecrets(z: Keys, secrets: seq<SecretRow>, entropy: nat -> Entropy)
    requires Usable(z) && Random(entropy) && NoSecretRaises(z, secrets, |secrets|, false)
    ensures SecretIds(SecretsAfter(z, secrets, entropy, |secrets|)) <= {Some(z.new_.keyId)} <==>
            forall k | 0 <= k < |secrets| ::
              Stranded !in ColumnFinding(z, secrets[k].sealed, secrets[k].context)
              && Stranded !in ColumnFinding(z, secrets[k].previous, secrets[k].context)
  {
    var secrets' := SecretsAfter(z, secrets, entropy, |secrets|);
    OnlyTheNewId(z, secrets');
    forall k: nat | k < |secrets|
      ensures UnderNewKey(z, secrets'[k].sealed) <==> Stranded !in ColumnFinding(z, secrets[k].sealed, secrets[k].context)
      ensures UnderNewKey(z, secrets'[k].previous) <==> Stranded !in ColumnFinding(z, secrets[k].previous, secrets[k].context)
    {
      var row := secrets[k];
      assert !SecretRaises(z, row, false);
      NewColumn(z, row.sealed, row.context, entropy(2 * k));
      NewColumn(z, row.previous, row.context, entropy(2 * k + 1));
    }
  }

  /** A finished run leaves nothing for the next one: repeated, it finds every column either
      current or still stranded, and changes no row. */
  lemma FinishedRunIsIdempotent(z: Keys, keys: seq<KeyRow>, secrets: seq<SecretRow>, entropy: nat -> Entropy, again: nat -> Entropy)
    requires Usable(z) && Random(entropy) && Random(again)
    requires NoKeyRaises(z, keys, |keys|, false) && NoSecretRaises(z, secrets, |secrets|, false)
    ensures var keys' := KeysAfter(z, keys, entropy, |keys|);
            var secrets' := SecretsAfter(z, secrets, entropy, |secrets|);
            && KeysAfter(z, keys', again, |keys'|) == keys'
            && SecretsAfter(z, secrets', again, |secrets'|) == secrets'
            && NoKeyRaises(z, keys', |keys'|, false) && NoSecretRaises(z, secrets', |secrets'|, false)
  {
    FinishedKeysStay(z, keys, entropy, again);
    FinishedSecretsStay(z, secrets, entropy, again);
  }

  lemma FinishedRowStays(z: Keys, row: SecretRow, first: Entropy, second: Entropy, third: Entropy, fourth: Entropy)
    requires Usable(z) && ValidEntropy(first) && ValidEntropy(second) && !SecretRaises(z, row, false)
    ensures var row' := RowAfter(z, row, first, second);
            RowAfter(z, row', third, fourth) == row' && !SecretRaises(z, row', false)
  {
    FinishedColumn(z, row.sealed, row.context, first);
    FinishedColumn(z, row.previous, row.context, second);
  }

  lemma FinishedKeysStay(z: Keys, keys: seq<KeyRow>, entropy: nat -> Entropy, again: nat -> Entropy)
    requires Usable(z) && Random(entropy) && NoKeyRaises(z, keys, |keys|, false)
    ensures var keys' := KeysAfter(z, keys, entropy, |keys|);
            KeysAfter(z, keys', again, |keys'|) == keys' && NoKeyRaises(z, keys', |keys'|, false)
  {
    var keys' := KeysAfter(z, keys, entropy, |keys|);
    forall k: nat | k < |keys| ensures KeyAfter(z, keys'[k], again(k)) == keys'[k] && !KeyRaises(z, keys'[k], false) {
      FinishedKey(z, keys[k], entropy(k));
    }
    assert KeysAfter(z, keys', again, |keys'|) == keys';
  }

  lemma FinishedSecretsStay(z: Keys, secrets: seq<SecretRow>, entropy: nat -> Entropy, again: nat -> Entropy)
    requires Usable(z) && Random(entropy) && NoSecretRaises(z, secrets, |secrets|, false)
    ensures var secrets' := SecretsAfter(z, secrets, entropy, |secrets|);
            SecretsAfter(z, secrets', again, |secrets'|) == secrets' && NoSecretRaises(z, secrets', |secrets'|, false)
  {
    var secrets' := SecretsAfter(z, secrets, entropy, |secrets|);
    forall k: nat | k < |secrets|
      ensures RowAfter(z, secrets'[k], again(2 * k), again(2 * k + 1)) == secrets'[k] && !SecretRaises(z, secrets'[k], false)
    {
      FinishedRowStays(z, secrets[k], entropy(2 * k), entropy(2 * k + 1), again(2 * k), again(2 * k + 1));
    }
    SecretsUnchanged(z, secrets', again);
  }

  lemma SecretsUnchanged(z: Keys, rows: seq<SecretRow>, again: nat -> Entropy)
    requires forall k: nat | k < |rows| :: RowAfter(z, rows[k], again(2 * k), again(2 * k + 1)) == rows[k]
    ensures SecretsAfter(z, rows, again, |rows|) == rows
  {
    var after := SecretsAfter(z, rows, again, |rows|);
    assert forall k: nat | k < |rows| :: after[k] == rows[k];
  }

  // --- a run that cannot finish ------------------------------------------------------------

  /** Where a real run over the private keys ends: at the first row that raises. */
  function KeyStop(z: Keys, rows: seq<KeyRow>): (n: nat)
    ensures n <= |rows| && NoKeyRaises(z, rows, n, false)
    ensures n < |rows| ==> KeyRaises(z, rows[n], false)
  {
    if rows == [] then 0
    else
      var earlier := KeyStop(z, rows[..|rows| - 1]);
      assert forall k | 0 <= k < |rows| - 1 :: rows[..|rows| - 1][k] == rows[k];
      if earlier < |rows| - 1 || KeyRaises(z, rows[|rows| - 1], false) then earlier else |rows|
  }

  function SecretStop(z: Keys, rows: seq<SecretRow>): (n: nat)
    ensures n <= |rows| && NoSecretRaises(z, rows, n, false)
    ensures n < |rows| ==> SecretRaises(z, rows[n], false)
  {
    if rows == [] then 0
    else
      var earlier := SecretStop(z, rows[..|rows| - 1]);
      assert forall k | 0 <= k < |rows| - 1 :: rows[..|rows| - 1][k] == rows[k];
      if earlier < |rows| - 1 || SecretRaises(z, rows[|rows| - 1], false) then earlier else |rows|
  }

  function Least(a: nat, b: nat): nat { if a < b then a else b }

  datatype Stores = Stores(keys: seq<KeyRow>, secrets: seq<SecretRow>)

  /** One real run, killed after at most so many rows of each table: an exception ends it
      earlier, and the second table is only reached once the first is done. */
  function Ran(z: Keys, s: Stores, r: Interrupted): Stores {
    var keyRows := Least(r.keyRows, KeyStop(z, s.keys));
    var secretRows := if keyRows < |s.keys| then 0 else Least(r.secretRows, SecretStop(z, s.secrets));
    Stores(KeysAfter(z, s.keys, r.keyEntropy, keyRows), SecretsAfter(z, s.secrets, r.secretEntropy, secretRows))
  }

  function RanAll(z: Keys, s: Stores, runs: seq<Interrupted>): Stores
    decreases |runs|
  {
    if runs == [] then s else RanAll(z, Ran(z, s, runs[0]), runs[1..])
  }

  lemma StopsThere(z: Keys, s: Stores, n: nat, r: Interrupted)
    requires n < |s.keys| && KeyRaises(z, s.keys[n], false)
    ensures var s' := Ran(z, s, r);
            |s'.keys| == |s.keys| && s'.keys[n..] == s.keys[n..] && s'.secrets == s.secrets
  {
    var s' := Ran(z, s, r);
    assert KeyStop(z, s.keys) <= n;
    assert forall k | n <= k < |s.keys| :: s'.keys[k] == s.keys[k];
    assert forall k | 0 <= k < |s.secrets| :: s'.secrets[k] == s.secrets[k];
  }

  /** One private key that names the old key and does not open under it stops every run: no
      sequence of runs, however each is interrupted, moves that row, any key row behind it,
      or any signing secret. */
  lemma {:induction false} BrokenRowBlocks(z: Keys, s: Stores, n: nat, runs: seq<Interrupted>)
    requires n < |s.keys| && KeyRaises(z, s.keys[n], false)
    ensures var s' := RanAll(z, s, runs);
            |s'.keys| == |s.keys| && s'.keys[n..] == s.keys[n..] && s'.secrets == s.secrets
    decreases |runs|
  {
    if runs != [] {
      var s' := Ran(z, s, runs[0]);
      StopsThere(z, s, n, runs[0]);
      assert s'.keys[n] == s'.keys[n..][0] == s.keys[n..][0];
      BrokenRowBlocks(z, s', n, runs[1..]);
    }
  }

  lemma SecretStopsThere(z: Keys, s: Stores, n: nat, r: Interrupted)
    requires n < |s.secrets| && SecretRaises(z, s.secrets[n], false)
    ensures var s' := Ran(z, s, r); |s'.secrets| == |s.secrets| && s'.secrets[n..] == s.secrets[n..]
  {
    var s' := Ran(z, s, r);
    assert SecretStop(z, s.secrets) <= n;
    assert forall k | n <= k < |s.secrets| :: s'.secrets[k] == s.secrets[k];
  }

  /** A signing secret like that stops every run at its row of the second table. */
  lemma {:induction false} BrokenSecretBlocks(z: Keys, s: Stores, n: nat, runs: seq<Interrupted>)
    requires n < |s.secrets| && SecretRaises(z, s.secrets[n], false)
    ensures var s' := RanAll(z, s, runs); |s'.secrets| == |s.secrets| && s'.secrets[n..] == s.secrets[n..]
    decreases |runs|
  {
    if runs != [] {
      var s' := Ran(z, s, runs[0]);
      SecretStopsThere(z, s, n, runs[0]);
      assert s'.secrets[n] == s'.secrets[n..][0] == s.secrets[n..][0];
      BrokenSecretBlocks(z, s', n, runs[1..]);
    }
  }
}
