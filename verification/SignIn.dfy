/** Signing in with a local account: the throttle rows, the account rows and the
    verification cache, changed in place by each attempt. */
module SignIn {
  import opened Wrappers
  import opened Throttle
  import VerificationCache

  const MAXIMUM_PASSWORD_LENGTH := 1024

  datatype Account = Account(stored: string, disabled: bool)

  class Accounts {
    const settings: Settings
    const dummyHash: string
    const cache: VerificationCache.Cache
    var accounts: map<string, Account>
    var counters: Counters

    constructor (settings: Settings, dummyHash: string, cache: VerificationCache.Cache, accounts: map<string, Account>)
      ensures this.settings == settings && this.cache == cache && this.accounts == accounts && counters == map[]
      ensures this.dummyHash == dummyHash
    {
      this.settings, this.dummyHash, this.cache, this.accounts, counters := settings, dummyHash, cache, accounts, map[];
    }

    /** What a presented name and password amount to, decided by hashing alone. */
    ghost function Presented(subject: string, source: Option<string>, password: string, now: int): Attempt
      reads this
    {
      var known := subject in accounts;
      Attempt(subject, source, |password| > MAXIMUM_PASSWORD_LENGTH,
              known && cache.hashing.verifies(accounts[subject].stored, password),
              known && !accounts[subject].disabled, now)
    }

    /** The name's lock, or else the source's. */
    method FirstLock(subject: string, source: Option<string>, now: int) returns (lock: Option<Scope>)
      ensures forall a: Attempt | a.subject == subject && a.source == source && a.now == now :: lock == LockOf(counters, a)
    {
      var keys := [Key(Subject, subject)];
      if source.Some? && source.value != "" {
        keys := keys + [Key(Source, source.value)];
      }
      assert keys[0] == Key(Subject, subject);
      for k := 0 to |keys|
        invariant forall j | 0 <= j < k :: !Locked(Get(counters, keys[j]), now)
      {
        if Locked(Get(counters, keys[k]), now) {
          return Some(keys[k].scope);
        }
      }
      assert !Locked(Get(counters, keys[0]), now);
      assert |keys| == 2 ==> !Locked(Get(counters, keys[1]), now);
      return None;
    }

    /** One failure more on a counter, and whether that locked it. */
    method Count(k: Key, now: int) returns (locked: bool)
      modifies this`counters
      ensures counters == old(counters)[k := Counted(Get(old(counters), k), settings.Threshold(k.scope), settings, now)]
      ensures locked <==> k in old(counters) && old(counters)[k].last + settings.window > now
                          && !Locked(Get(old(counters), k), now) && counters[k].failures >= settings.Threshold(k.scope)
    {
      locked := false;
      if k !in counters || counters[k].last + settings.window <= now {
        counters := counters[k := Counter(1, now, now, None)];
        return;
      }
      var row := counters[k];
      var failures := row.failures + 1;
      var lockedUntil := row.lockedUntil;
      if failures >= settings.Threshold(k.scope) && (lockedUntil.None? || lockedUntil.value <= now) {
        lockedUntil := Some(now + settings.lockout);
        locked := true;
      }
      counters := counters[k := row.(failures := failures, last := now, lockedUntil := lockedUntil)];
    }

    /** Count one failure against the name and against the source. */
    method Fail(a: Attempt)
      modifies this`counters
      ensures counters == Failed(old(counters), settings, a)
    {
      if a.subject != "" {
        var _ := Count(Key(Subject, a.subject), a.now);
      }
      if a.source.Some? && a.source.value != "" {
        var _ := Count(Key(Source, a.source.value), a.now);
      }
    }

    /** Every stored hash was made for the account it stands under, and the one checked for
        unknown names verifies nothing. */
    ghost predicate Valid()
      reads this, cache
    {
      && cache.Valid() && VerificationCache.CollisionFree(cache.hashing)
      && VerificationCache.NulFree(dummyHash) && (forall p: string :: !cache.hashing.verifies(dummyHash, p))
      && forall s | s in accounts :: VerificationCache.NulFree(accounts[s].stored) && cache.hashing.owner(accounts[s].stored) == s
    }

    /** A new hash of the same password, for a name whose hash was made at a lower cost. */
    ghost predicate Upgrades(subject: string, password: string, upgraded: Option<string>)
      reads this
    {
      upgraded.Some? ==>
        && VerificationCache.NulFree(upgraded.value) && cache.hashing.owner(upgraded.value) == subject
        && cache.hashing.verifies(upgraded.value, password)
    }

    /** One attempt nobody interrupts. The cache never shows: outcome and counters are what
        hashing every password would give, and only a sign-in replaces a stored hash. */
    method Authenticate(subject: string, source: Option<string>, password: string, upgraded: Option<string>, now: int, tick: int)
      returns (outcome: Outcome)
      requires Valid() && Upgrades(subject, password, upgraded)
      modifies this`counters, this`accounts, cache
      ensures Valid()
      ensures var a := old(Presented(subject, source, password, now));
              outcome == OutcomeOf(old(counters), a) && counters == Step(old(counters), settings, a)
      ensures accounts == if outcome == SignedIn && upgraded.Some?
                          then old(accounts)[subject := old(accounts)[subject].(stored := upgraded.value)] else old(accounts)
    {
      ghost var a := Presented(subject, source, password, now);
      var lock := FirstLock(subject, source, now);
      if lock.Some? {
        return LockedOut(lock.value);
      }
      if |password| > MAXIMUM_PASSWORD_LENGTH {
        return Oversized;
      }
      var stored := if subject in accounts then accounts[subject].stored else dummyHash;
      var verified := cache.Verify(subject, password, stored, tick);
      if verified && subject in accounts && !accounts[subject].disabled {
        Succeed(subject, upgraded);
        return SignedIn;
      }
      Fail(Attempt(subject, source, false, false, false, now));
      assert Failed(old(counters), settings, a) == Failed(old(counters), settings, Attempt(subject, source, false, false, false, now));
      return BadCredential;
    }

    /** The name's failures are forgotten, and its hash replaced when it was made at a lower
        cost; what the cache holds against the old one goes with it. */
    method Succeed(subject: string, upgraded: Option<string>)
      requires subject in accounts && Valid()
      requires upgraded.Some? ==> VerificationCache.NulFree(upgraded.value) && cache.hashing.owner(upgraded.value) == subject
      modifies this`counters, this`accounts, cache
      ensures Valid() && counters == old(counters) - {Key(Subject, subject)}
      ensures accounts == if upgraded.Some? then old(accounts)[subject := old(accounts)[subject].(stored := upgraded.value)]
                          else old(accounts)
      ensures upgraded.Some? ==> cache.entries == []
    {
      counters := counters - {Key(Subject, subject)};
      if upgraded.Some? {
        accounts := accounts[subject := accounts[subject].(stored := upgraded.value)];
        cache.ForgetAll();
      }
    }

    /** Deletes the counter, failures and lock together. */
    method ClearLockout(k: Key) returns (cleared: bool)
      modifies this`counters
      ensures cleared <==> k in old(counters)
      ensures counters == old(counters) - {k}
    {
      cleared := k in counters;
      counters := counters - {k};
    }

    /** Deletes the counters last counted before the cutoff. */
    method PurgeLockouts(before: Option<int>, now: int) returns (dropped: nat)
      modifies this`counters
      ensures counters == Purged(old(counters), if before.Some? then before.value else DefaultCutoff(settings, now))
      ensures dropped == |old(counters)| - |counters|
    {
      var cutoff := if before.Some? then before.value else now - settings.window - settings.lockout;
      var kept := map k | k in counters && counters[k].last >= cutoff :: counters[k];
      assert kept.Keys <= counters.Keys;
      assert |counters.Keys| == |kept.Keys| + |counters.Keys - kept.Keys|;
      dropped := |counters| - |kept|;
      counters := kept;
    }
  }
}
