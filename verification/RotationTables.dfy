/** The rotation as it runs: row by row over the two tables, each row in a transaction of
    its own, the counters beside it. */
module RotationTables {
  import opened Wrappers
  import opened Sealing
  import opened Rekey

  class SealedTables {
    var keys: seq<KeyRow>
    var secrets: seq<SecretRow>

    constructor (keys: seq<KeyRow>, secrets: seq<SecretRow>)
      ensures this.keys == keys && this.secrets == secrets
    {
      this.keys, this.secrets := keys, secrets;
    }

    /** Re-seal the private keys. An exception stops the run at its row, with the rows
        before it moved; a dry run moves nothing and counts the same. */
    method RekeyPrivateKeys(z: Keys, dryRun: bool, entropy: nat -> Entropy) returns (r: Result<Counts, SealingError>)
      modifies this`keys
      ensures r.Success? <==> NoKeyRaises(z, old(keys), |old(keys)|, dryRun)
      ensures r.Success? ==> r.value == Rekey.Tally(KeyFindings(z, old(keys)))
                             && keys == if dryRun then old(keys) else KeysAfter(z, old(keys), entropy, |old(keys)|)
      ensures r.Failure? ==> exists n: nat :: n < |old(keys)| && NoKeyRaises(z, old(keys), n, dryRun)
                               && KeyRaises(z, old(keys)[n], dryRun)
                               && keys == if dryRun then old(keys) else KeysAfter(z, old(keys), entropy, n)
      ensures !dryRun ==> keys == KeysAfter(z, old(keys), entropy, KeyStop(z, old(keys)))
    {
      var rows := keys;
      var counts := Counts(0, 0, 0);
      KeysAtStart(z, rows, dryRun, entropy);
      for k := 0 to |rows|
        invariant KeysSoFar(z, rows, keys, counts, k, dryRun, entropy)
      {
        var one := RekeyKey(z, rows[k], dryRun, entropy(k));
        if one.Failure? {
          return Failure(one.error);
        }
        KeysStepped(z, rows, keys, counts, k, dryRun, entropy, one.value.0, one.value.1);
        counts := counts.Plus(one.value.0);
        if !dryRun {
          keys := keys[k := one.value.1];
        }
      }
      KeysAtEnd(z, rows, keys, counts, dryRun, entropy);
      return Success(counts);
    }

    /** Where a run over the private keys stands after `k` rows. */
    static ghost predicate KeysSoFar(z: Keys, rows: seq<KeyRow>, now: seq<KeyRow>, counts: Counts, k: nat,
                                     dryRun: bool, entropy: nat -> Entropy) {
      && k <= |rows| == |now|
      && NoKeyRaises(z, rows, k, dryRun)
      && now == (if dryRun then rows else KeysAfter(z, rows, entropy, k))
      && counts == Rekey.Tally(KeyFindings(z, rows[..k]))
    }

    static lemma KeysAtStart(z: Keys, rows: seq<KeyRow>, dryRun: bool, entropy: nat -> Entropy)
      ensures KeysSoFar(z, rows, rows, Counts(0, 0, 0), 0, dryRun, entropy)
    {
      assert KeysAfter(z, rows, entropy, 0) == rows;
    }

    static lemma KeysStepped(z: Keys, rows: seq<KeyRow>, now: seq<KeyRow>, counts: Counts, k: nat,
                             dryRun: bool, entropy: nat -> Entropy, one: Counts, row: KeyRow)
      requires KeysSoFar(z, rows, now, counts, k, dryRun, entropy) && k < |rows| && !KeyRaises(z, rows[k], dryRun)
      requires one == Rekey.Tally(RowFinding(z, rows[k]))
      requires row == if dryRun then rows[k] else KeyAfter(z, rows[k], entropy(k))
      ensures KeysSoFar(z, rows, if dryRun then now else now[k := row], counts.Plus(one), k + 1, dryRun, entropy)
    {
      KeyTallyStep(z, rows, k);
      KeysStep(z, rows, entropy, k);
    }

    static lemma KeysAtEnd(z: Keys, rows: seq<KeyRow>, now: seq<KeyRow>, counts: Counts,
                           dryRun: bool, entropy: nat -> Entropy)
      requires KeysSoFar(z, rows, now, counts, |rows|, dryRun, entropy)
      ensures counts == Rekey.Tally(KeyFindings(z, rows))
    {
      assert rows[..|rows|] == rows;
    }

    /** One private key: what to count, and what to write in its place. */
    method RekeyKey(z: Keys, row: KeyRow, dryRun: bool, e: Entropy) returns (r: Result<(Counts, KeyRow), SealingError>)
      ensures r.Failure? <==> KeyRaises(z, row, dryRun)
      ensures r.Success? ==> r.value.0 == Rekey.Tally(RowFinding(z, row))
                             && r.value.1 == if dryRun then row else KeyAfter(z, row, e)
    {
      if row.sealed.None? {
        return Success((Counts(0, 0, 0), row));
      }
      var blob := row.sealed.value;
      TallyOne(KeyFinding(z, blob, row.context));
      var sealedWith := SealedKeyId(blob);
      if sealedWith == Some(z.new_.keyId) {
        return Success((Counts(0, 1, 0), row));
      }
      if sealedWith != Some(z.old_.keyId) {
        return Success((Counts(0, 0, 1), row));
      }
      var plaintext := Open(z.crypto, z.old_, blob, row.context);
      if plaintext.Failure? {
        return Failure(plaintext.error);
      }
      if dryRun {
        return Success((Counts(1, 0, 0), row));
      }
      var sealed := Seal(z.crypto, z.new_, plaintext.value, row.context, e);
      if sealed.Failure? {
        return Failure(sealed.error);
      }
      return Success((Counts(1, 0, 0), row.(sealed := Some(sealed.value))));
    }

    /** One column of a subscription: what to count, and what to write in its place. */
    method RekeyColumn(z: Keys, blob: Option<Bytes>, context: Bytes, dryRun: bool, e: Entropy)
      returns (r: Result<(Counts, Option<Bytes>), SealingError>)
      ensures r.Failure? <==> blob.Some? && Raises(SecretFinding(z, blob.value, context), dryRun)
      ensures r.Success? ==> r.value.0 == Rekey.Tally(ColumnFinding(z, blob, context))
                             && r.value.1 == if dryRun then blob else SecretAfter(z, blob, context, e)
    {
      if blob.None? {
        return Success((Counts(0, 0, 0), None));
      }
      TallyOne(SecretFinding(z, blob.value, context));
      var sealedWith := SealedKeyId(blob.value);
      if sealedWith == Some(z.new_.keyId) {
        return Success((Counts(0, 1, 0), blob));
      }
      if sealedWith != Some(z.old_.keyId) {
        return Success((Counts(0, 0, 1), blob));
      }
      var plaintext := if IsWrapped(blob.value) then Unwrap(z.crypto, z.old_, blob.value, context)
                       else Open(z.crypto, z.old_, blob.value, context);
      if plaintext.Failure? {
        return Failure(plaintext.error);
      }
      if dryRun {
        return Success((Counts(1, 0, 0), blob));
      }
      var wrapped := Wrap(z.crypto, z.new_, plaintext.value, context, e);
      if wrapped.Failure? {
        return Failure(wrapped.error);
      }
      return Success((Counts(1, 0, 0), Some(wrapped.value)));
    }

    /** Both columns of a subscription, the live one first: what to count, and the new row. */
    method RekeyRow(z: Keys, row: SecretRow, dryRun: bool, first: Entropy, second: Entropy)
      returns (r: Result<(Counts, Counts, SecretRow), SealingError>)
      ensures r.Failure? <==> SecretRaises(z, row, dryRun)
      ensures r.Success? ==> r.value.0 == Rekey.Tally(ColumnFinding(z, row.sealed, row.context))
                             && r.value.1 == Rekey.Tally(ColumnFinding(z, row.previous, row.context))
                             && r.value.2 == if dryRun then row else RowAfter(z, row, first, second)
    {
      var live := RekeyColumn(z, row.sealed, row.context, dryRun, first);
      if live.Failure? {
        return Failure(live.error);
      }
      var before := RekeyColumn(z, row.previous, row.context, dryRun, second);
      if before.Failure? {
        return Failure(before.error);
      }
      return Success((live.value.0, before.value.0, row.(sealed := live.value.1, previous := before.value.1)));
    }

    /** Re-seal the signing secrets: both columns of a subscription in one transaction. */
    method RekeyWebhookSecrets(z: Keys, dryRun: bool, entropy: nat -> Entropy) returns (r: Result<Counts, SealingError>)
      modifies this`secrets
      ensures r.Success? <==> NoSecretRaises(z, old(secrets), |old(secrets)|, dryRun)
      ensures r.Success? ==> r.value == Rekey.Tally(SecretFindings(z, old(secrets)))
                             && secrets == if dryRun then old(secrets)
                                           else SecretsAfter(z, old(secrets), entropy, |old(secrets)|)
      ensures r.Failure? ==> exists n: nat :: n < |old(secrets)| && NoSecretRaises(z, old(secrets), n, dryRun)
                               && SecretRaises(z, old(secrets)[n], dryRun)
                               && secrets == if dryRun then old(secrets) else SecretsAfter(z, old(secrets), entropy, n)
      ensures !dryRun ==> secrets == SecretsAfter(z, old(secrets), entropy, SecretStop(z, old(secrets)))
    {
      var rows := secrets;
      var counts := Counts(0, 0, 0);
      SecretsAtStart(z, rows, dryRun, entropy);
      for k := 0 to |rows|
        invariant SecretsSoFar(z, rows, secrets, counts, k, dryRun, entropy)
      {
        var one := RekeyRow(z, rows[k], dryRun, entropy(2 * k), entropy(2 * k + 1));
        if one.Failure? {
          SecretsStopped(z, rows, secrets, counts, k, dryRun, entropy);
          return Failure(one.error);
        }
        SecretsStepped(z, rows, secrets, counts, k, dryRun, entropy, one.value.0, one.value.1, one.value.2);
        counts := counts.Plus(one.value.0).Plus(one.value.1);
        if !dryRun {
          secrets := secrets[k := one.value.2];
        }
      }
      SecretsAtEnd(z, rows, secrets, counts, dryRun, entropy);
      return Success(counts);
    }

    static ghost predicate SecretsSoFar(z: Keys, rows: seq<SecretRow>, now: seq<SecretRow>, counts: Counts, k: nat,
                                        dryRun: bool, entropy: nat -> Entropy) {
      && k <= |rows| == |now|
      && NoSecretRaises(z, rows, k, dryRun)
      && now == (if dryRun then rows else SecretsAfter(z, rows, entropy, k))
      && counts == Rekey.Tally(SecretFindings(z, rows[..k]))
    }

    static lemma SecretsAtStart(z: Keys, rows: seq<SecretRow>, dryRun: bool, entropy: nat -> Entropy)
      ensures SecretsSoFar(z, rows, rows, Counts(0, 0, 0), 0, dryRun, entropy)
    {
      assert SecretsAfter(z, rows, entropy, 0) == rows;
    }

    static lemma SecretsStepped(z: Keys, rows: seq<SecretRow>, now: seq<SecretRow>, counts: Counts, k: nat,
                                dryRun: bool, entropy: nat -> Entropy, live: Counts, before: Counts, row: SecretRow)
      requires SecretsSoFar(z, rows, now, counts, k, dryRun, entropy) && k < |rows| && !SecretRaises(z, rows[k], dryRun)
      requires live == Rekey.Tally(ColumnFinding(z, rows[k].sealed, rows[k].context))
      requires before == Rekey.Tally(ColumnFinding(z, rows[k].previous, rows[k].context))
      requires row == if dryRun then rows[k] else RowAfter(z, rows[k], entropy(2 * k), entropy(2 * k + 1))
      ensures SecretsSoFar(z, rows, if dryRun then now else now[k := row], counts.Plus(live).Plus(before), k + 1, dryRun, entropy)
    {
      SecretTallyStep(z, rows, k);
      SecretsStep(z, rows, entropy, k);
    }

    /** An exception at row `k`: that is where the run stops. */
    static lemma SecretsStopped(z: Keys, rows: seq<SecretRow>, now: seq<SecretRow>, counts: Counts, k: nat,
                                dryRun: bool, entropy: nat -> Entropy)
      requires SecretsSoFar(z, rows, now, counts, k, dryRun, entropy) && k < |rows| && SecretRaises(z, rows[k], dryRun)
      ensures !NoSecretRaises(z, rows, |rows|, dryRun)
      ensures exists n: nat :: n < |rows| && NoSecretRaises(z, rows, n, dryRun) && SecretRaises(z, rows[n], dryRun)
                               && now == if dryRun then rows else SecretsAfter(z, rows, entropy, n)
      ensures !dryRun ==> now == SecretsAfter(z, rows, entropy, SecretStop(z, rows))
    {
    }

    static lemma SecretsAtEnd(z: Keys, rows: seq<SecretRow>, now: seq<SecretRow>, counts: Counts,
                              dryRun: bool, entropy: nat -> Entropy)
      requires SecretsSoFar(z, rows, now, counts, |rows|, dryRun, entropy)
      ensures counts == Rekey.Tally(SecretFindings(z, rows))
    {
      assert rows[..|rows|] == rows;
    }

    /** One rotation run. When it finishes, moved, current and stranded add up to the number
        of sealed columns, and a dry run reports what a real run reports. */
    method Run(z: Keys, dryRun: bool, keyEntropy: nat -> Entropy, secretEntropy: nat -> Entropy)
      returns (r: Result<Counts, SealingError>)
      modifies this
      ensures r.Success? <==> NoKeyRaises(z, old(keys), |old(keys)|, dryRun)
                              && NoSecretRaises(z, old(secrets), |old(secrets)|, dryRun)
      ensures r.Success? ==> r.value == Rekey.Tally(KeyFindings(z, old(keys)) + SecretFindings(z, old(secrets)))
      ensures r.Success? ==> r.value.Total() == |KeyFindings(z, old(keys)) + SecretFindings(z, old(secrets))|
      ensures r.Success? && !dryRun ==> keys == KeysAfter(z, old(keys), keyEntropy, |old(keys)|)
                                        && secrets == SecretsAfter(z, old(secrets), secretEntropy, |old(secrets)|)
      ensures dryRun ==> keys == old(keys) && secrets == old(secrets)
      ensures !dryRun ==> Stores(keys, secrets) == Ran(z, Stores(old(keys), old(secrets)),
                                                       Interrupted(|old(keys)|, |old(secrets)|, keyEntropy, secretEntropy))
    {
      var first := RekeyPrivateKeys(z, dryRun, keyEntropy);
      if first.Failure? {
        if !dryRun { StoppedAtAKey(z, old(keys), old(secrets), keyEntropy, secretEntropy); }
        return first;
      }
      var second := RekeyWebhookSecrets(z, dryRun, secretEntropy);
      if !dryRun { ReachedSecrets(z, old(keys), old(secrets), keyEntropy, secretEntropy); }
      if second.Failure? {
        return second;
      }
      BothTallied(z, old(keys), old(secrets), dryRun);
      return Success(first.value.Plus(second.value));
    }

    static lemma StoppedAtAKey(z: Keys, keys: seq<KeyRow>, secrets: seq<SecretRow>, first: nat -> Entropy, second: nat -> Entropy)
      requires !NoKeyRaises(z, keys, |keys|, false)
      ensures Ran(z, Stores(keys, secrets), Interrupted(|keys|, |secrets|, first, second))
           == Stores(KeysAfter(z, keys, first, KeyStop(z, keys)), secrets)
    {
      assert SecretsAfter(z, secrets, second, 0) == secrets;
    }

    static lemma ReachedSecrets(z: Keys, keys: seq<KeyRow>, secrets: seq<SecretRow>, first: nat -> Entropy, second: nat -> Entropy)
      requires NoKeyRaises(z, keys, |keys|, false)
      ensures KeyStop(z, keys) == |keys|
      ensures Ran(z, Stores(keys, secrets), Interrupted(|keys|, |secrets|, first, second))
           == Stores(KeysAfter(z, keys, first, |keys|), SecretsAfter(z, secrets, second, SecretStop(z, secrets)))
    {
    }

    static lemma BothTallied(z: Keys, keys: seq<KeyRow>, secrets: seq<SecretRow>, dryRun: bool)
      requires NoKeyRaises(z, keys, |keys|, dryRun) && NoSecretRaises(z, secrets, |secrets|, dryRun)
      ensures var found := KeyFindings(z, keys) + SecretFindings(z, secrets);
              && Rekey.Tally(found) == Rekey.Tally(KeyFindings(z, keys)).Plus(Rekey.Tally(SecretFindings(z, secrets)))
              && Rekey.Tally(found).Total() == |found|
    {
      TallyJoins(KeyFindings(z, keys), SecretFindings(z, secrets));
      NoKeyBroken(z, keys, dryRun);
      NoSecretBroken(z, secrets, dryRun);
      CountsAddUp(KeyFindings(z, keys) + SecretFindings(z, secrets));
    }

    static lemma {:induction false} NoKeyBroken(z: Keys, rows: seq<KeyRow>, dryRun: bool)
      requires NoKeyRaises(z, rows, |rows|, dryRun)
      ensures forall k | 0 <= k < |KeyFindings(z, rows)| :: !KeyFindings(z, rows)[k].Broken?
      decreases |rows|
    {
      if rows != [] {
        var front := rows[..|rows| - 1];
        assert forall k | 0 <= k < |front| :: front[k] == rows[k];
        NoKeyBroken(z, front, dryRun);
        assert !KeyRaises(z, rows[|rows| - 1], dryRun);
      }
    }

    static lemma {:induction false} NoSecretBroken(z: Keys, rows: seq<SecretRow>, dryRun: bool)
      requires NoSecretRaises(z, rows, |rows|, dryRun)
      ensures forall k | 0 <= k < |SecretFindings(z, rows)| :: !SecretFindings(z, rows)[k].Broken?
      decreases |rows|
    {
      if rows != [] {
        var front := rows[..|rows| - 1];
        assert forall k | 0 <= k < |front| :: front[k] == rows[k];
        NoSecretBroken(z, front, dryRun);
        assert !SecretRaises(z, rows[|rows| - 1], dryRun);
      }
    }

    /** An empty private key opens and cannot be sealed again. */
    static predicate EmptyKey(z: Keys, row: KeyRow) {
      row.sealed.Some? && KeyFinding(z, row.sealed.value, row.context) == Opens("")
    }

    static predicate EmptySecret(z: Keys, row: SecretRow) {
      || (row.sealed.Some? && SecretFinding(z, row.sealed.value, row.context) == Opens(""))
      || (row.previous.Some? && SecretFinding(z, row.previous.value, row.context) == Opens(""))
    }

    /** A real run finishes exactly when a dry run does and nothing that opens is empty. */
    static lemma DryRunForetells(z: Keys, keys: seq<KeyRow>, secrets: seq<SecretRow>)
      ensures NoKeyRaises(z, keys, |keys|, false) && NoSecretRaises(z, secrets, |secrets|, false) <==>
                && NoKeyRaises(z, keys, |keys|, true) && NoSecretRaises(z, secrets, |secrets|, true)
                && (forall k | 0 <= k < |keys| :: !EmptyKey(z, keys[k]))
                && (forall k | 0 <= k < |secrets| :: !EmptySecret(z, secrets[k]))
    {
      forall k | 0 <= k < |keys|
        ensures KeyRaises(z, keys[k], false) <==> KeyRaises(z, keys[k], true) || EmptyKey(z, keys[k])
      {
      }
      forall k | 0 <= k < |secrets|
        ensures SecretRaises(z, secrets[k], false) <==> SecretRaises(z, secrets[k], true) || EmptySecret(z, secrets[k])
      {
      }
    }

    // --- the survey --------------------------------------------------------------------

    /** The key id of every sealed column, in table order. */
    static function Listed(keys: seq<KeyRow>, secrets: seq<SecretRow>): seq<Option<Bytes>> {
      ListedKeys(keys) + ListedSecrets(secrets)
    }

    static function ListedKeys(rows: seq<KeyRow>): seq<Option<Bytes>> {
      if rows == [] then [] else ListedKeys(rows[..|rows| - 1]) + Named(rows[|rows| - 1].sealed)
    }

    static function ListedSecrets(rows: seq<SecretRow>): seq<Option<Bytes>> {
      if rows == [] then []
      else ListedSecrets(rows[..|rows| - 1]) + Named(rows[|rows| - 1].sealed) + Named(rows[|rows| - 1].previous)
    }

    static function Named(blob: Option<Bytes>): seq<Option<Bytes>> {
      if blob.Some? then [SealedKeyId(blob.value)] else []
    }

    static predicate Counted(counts: map<Option<Bytes>, nat>, ids: seq<Option<Bytes>>) {
      && (forall id | id in counts :: counts[id] == multiset(ids)[id])
      && (forall id | id in ids :: id in counts)
      && (forall id | id in counts :: id in ids)
    }

    static lemma BumpCounts(counts: map<Option<Bytes>, nat>, ids: seq<Option<Bytes>>, id: Option<Bytes>)
      requires Counted(counts, ids)
      ensures Counted(counts[id := if id in counts then counts[id] + 1 else 1], ids + [id])
    {
      assert id in ids + [id] && multiset(ids + [id]) == multiset(ids) + multiset{id};
      forall other | other in ids ensures other in ids + [id] {}
    }

    /** Count one column's key id, if the column holds anything. */
    method CountColumn(counts: map<Option<Bytes>, nat>, blob: Option<Bytes>, ghost ids: seq<Option<Bytes>>)
      returns (r: map<Option<Bytes>, nat>)
      requires Counted(counts, ids)
      ensures Counted(r, ids + Named(blob))
    {
      if blob.None? {
        assert ids + Named(blob) == ids;
        return counts;
      }
      var id := SealedKeyId(blob.value);
      BumpCounts(counts, ids, id);
      return counts[id := if id in counts then counts[id] + 1 else 1];
    }

    /** Counts the sealed columns by the key id they name. */
    method Survey() returns (counts: map<Option<Bytes>, nat>)
      ensures Counted(counts, Listed(keys, secrets))
    {
      counts := map[];
      var keyRows, secretRows := keys, secrets;
      ghost var ids := [];
      for k := 0 to |keyRows|
        invariant Counted(counts, ids) && ids == ListedKeys(keyRows[..k])
      {
        ListedKeysStep(keyRows, k);
        counts := CountColumn(counts, keyRows[k].sealed, ids);
        ids := ids + Named(keyRows[k].sealed);
      }
      ghost var first := ids;
      assert keyRows[..|keyRows|] == keyRows;
      for k := 0 to |secretRows|
        invariant Counted(counts, ids) && ids == first + ListedSecrets(secretRows[..k])
      {
        ListedSecretsStep(secretRows, first, k);
        counts := CountColumn(counts, secretRows[k].sealed, ids);
        ids := ids + Named(secretRows[k].sealed);
        counts := CountColumn(counts, secretRows[k].previous, ids);
        ids := ids + Named(secretRows[k].previous);
      }
      assert secretRows[..|secretRows|] == secretRows;
    }

    static lemma ListedKeysStep(rows: seq<KeyRow>, k: nat)
      requires k < |rows|
      ensures ListedKeys(rows[..k + 1]) == ListedKeys(rows[..k]) + Named(rows[k].sealed)
    {
      assert rows[..k + 1][..k] == rows[..k];
    }

    static lemma ListedSecretsStep(rows: seq<SecretRow>, first: seq<Option<Bytes>>, k: nat)
      requires k < |rows|
      ensures first + ListedSecrets(rows[..k + 1])
              == first + ListedSecrets(rows[..k]) + Named(rows[k].sealed) + Named(rows[k].previous)
    {
      assert rows[..k + 1][..k] == rows[..k];
    }

    /** A survey lists exactly the key ids that some sealed column names. */
    static lemma SurveyNames(keys: seq<KeyRow>, secrets: seq<SecretRow>)
      ensures forall id :: id in Listed(keys, secrets) <==> id in KeyIds(keys) + SecretIds(secrets)
    {
      KeysNamed(keys);
      SecretsNamed(secrets);
    }

    static lemma {:induction false} KeysNamed(rows: seq<KeyRow>)
      ensures forall id :: id in ListedKeys(rows) <==> exists k :: 0 <= k < |rows| && id in Named(rows[k].sealed)
      decreases |rows|
    {
      if rows != [] { KeysNamed(rows[..|rows| - 1]); }
    }

    static lemma {:induction false} SecretsNamed(rows: seq<SecretRow>)
      ensures forall id :: id in ListedSecrets(rows) <==>
                exists k :: 0 <= k < |rows| && (id in Named(rows[k].sealed) || id in Named(rows[k].previous))
      decreases |rows|
    {
      if rows != [] { SecretsNamed(rows[..|rows| - 1]); }
    }
  }
}
