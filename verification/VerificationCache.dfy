/** The cache of successful password verifications: bounded, and invisible in every answer. */
module VerificationCache {
  import opened Wrappers

  /** Password hashing and the keyed hash of this process; `owner` is the name a stored hash
      was made for. Hashes are salted, so that is one name. */
  datatype Hashing = Hashing(verifies: (string, string) -> bool, digest: string -> string, owner: string -> string)

  /** A stored hash can be checked for a name: it is that name's, or it verifies nothing, as
      the hash of a secret nobody keeps. */
  ghost predicate MayCheck(h: Hashing, subject: string, stored: string) {
    NulFree(stored) && (h.owner(stored) == subject || forall p: string :: !h.verifies(stored, p))
  }

  /** The keyed hash is taken to have no collisions. */
  ghost predicate CollisionFree(h: Hashing) { forall a, b :: h.digest(a) == h.digest(b) ==> a == b }

  const NUL: char := '\0'

  predicate NulFree(s: string) { NUL !in s }

  function Material(subject: string, password: string, stored: string): string {
    subject + [NUL] + password + [NUL] + stored
  }

  function Key(h: Hashing, subject: string, password: string, stored: string): string {
    h.digest(Material(subject, password, stored))
  }

  /** How many characters follow the last NUL. */
  function AfterLastNul(s: string): nat {
    if s == "" || s[|s| - 1] == NUL then 0 else 1 + AfterLastNul(s[..|s| - 1])
  }

  lemma {:induction false} LastNulStartsSuffix(x: string, a: string)
    requires NulFree(a)
    ensures AfterLastNul(x + [NUL] + a) == |a|
    decreases |a|
  {
    var s := x + [NUL] + a;
    if a != "" {
      assert s[..|s| - 1] == x + [NUL] + a[..|a| - 1];
      LastNulStartsSuffix(x, a[..|a| - 1]);
    }
  }

  /** Splitting at the last NUL is unambiguous when the last part holds none. */
  lemma LastPart(x: string, a: string, y: string, b: string)
    requires NulFree(a) && NulFree(b) && x + [NUL] + a == y + [NUL] + b
    ensures x == y && a == b
  {
    var left, right := x + [NUL] + a, y + [NUL] + b;
    LastNulStartsSuffix(x, a);
    LastNulStartsSuffix(y, b);
    assert left[..|x|] == x && right[..|x|] == y;
    assert left[|x| + 1..] == a && right[|x| + 1..] == b;
  }

  lemma SameStored(h: Hashing, s: string, p: string, t: string, s': string, p': string, t': string)
    requires CollisionFree(h) && NulFree(t) && NulFree(t')
    requires Key(h, s, p, t) == Key(h, s', p', t')
    ensures t == t' && s + [NUL] + p == s' + [NUL] + p'
  {
    assert Material(s, p, t) == (s + [NUL] + p) + [NUL] + t;
    assert Material(s', p', t') == (s' + [NUL] + p') + [NUL] + t';
    LastPart(s + [NUL] + p, t, s' + [NUL] + p', t');
  }

  /** A key names one credential: the stored hash stands behind the last NUL, and since it
      belongs to one name, name and password are told apart, whatever they hold. */
  lemma KeyNamesCredential(h: Hashing, s: string, p: string, t: string, s': string, p': string, t': string)
    requires CollisionFree(h) && NulFree(t) && NulFree(t') && (t == t' ==> s == s')
    requires Key(h, s, p, t) == Key(h, s', p', t')
    ensures s == s' && p == p' && t == t'
  {
    SameStored(h, s, p, t, s', p', t');
    assert (s + [NUL] + p)[|s| + 1..] == p && (s' + [NUL] + p')[|s| + 1..] == p';
  }

  /** Checked against one and the same hash, two names could share a key. */
  lemma NulMakesKeysAmbiguous(h: Hashing, stored: string)
    ensures Key(h, "a", ['b', NUL, 'c'], stored) == Key(h, ['a', NUL, 'b'], "c", stored)
  {
    assert Material("a", ['b', NUL, 'c'], stored) == Material(['a', NUL, 'b'], "c", stored);
  }

  datatype Entry = Entry(key: string, expires: int)

  /** Entries that have not expired, oldest first. */
  function Unexpired(entries: seq<Entry>, now: int): (r: seq<Entry>)
    ensures |r| <= |entries|
    ensures forall e :: e in r <==> e in entries && e.expires > now
  {
    if entries == [] then []
    else
      var rest := Unexpired(entries[1..], now);
      if entries[0].expires > now then [entries[0]] + rest else rest
  }

  function IndexOf(entries: seq<Entry>, key: string): (r: Option<nat>)
    ensures r.Some? ==> r.value < |entries| && entries[r.value].key == key
    ensures r.None? ==> forall e | e in entries :: e.key != key
  {
    if entries == [] then None
    else if entries[0].key == key then Some(0)
    else
      var later := IndexOf(entries[1..], key);
      if later.Some? then Some(later.value + 1) else None
  }

  function Newest(entries: seq<Entry>, n: nat): seq<Entry> {
    if |entries| <= n then entries else entries[|entries| - n..]
  }

  /** Making room for one more: what has expired goes, and if that is not enough the oldest. */
  function WithRoom(entries: seq<Entry>, now: int, size: nat): seq<Entry>
    requires size >= 1
  {
    if |entries| < size then entries else Newest(Unexpired(entries, now), size - 1)
  }

  /** A key keeps its place when it is set again. */
  function Put(entries: seq<Entry>, made: Entry): seq<Entry> {
    var at := IndexOf(entries, made.key);
    if at.Some? then entries[at.value := made] else entries + [made]
  }

  function Dropped(entries: seq<Entry>, at: nat): seq<Entry>
    requires at < |entries|
  {
    entries[..at] + entries[at + 1..]
  }

  /** What is remembered is held until its time is up, and not longer; of the others, those that
      have not expired stay, all of them when there is room and the newest when there is not. */
  lemma RememberedIsHeld(entries: seq<Entry>, key: string, now: int, ttl: int, size: nat)
    requires size >= 1
    ensures var after := Put(WithRoom(entries, now, size), Entry(key, now + ttl));
            var at := IndexOf(after, key);
            && at.Some? && after[at.value].expires == now + ttl
            && (|Unexpired(entries, now)| < size ==>
                  forall e | e in entries && e.expires > now && e.key != key :: e in after)
            && (|entries| >= size && |Unexpired(entries, now)| >= size ==>
                  WithRoom(entries, now, size) == Unexpired(entries, now)[|Unexpired(entries, now)| - (size - 1)..])
  {
    var kept, made := WithRoom(entries, now, size), Entry(key, now + ttl);
    var after, at := Put(kept, made), IndexOf(kept, key);
    if at.Some? {
      PutKeepsPlace(kept, made, at.value);
    } else {
      IndexOfNew(kept, made);
    }
    forall e | e in kept && e.key != key ensures e in after {
      var k :| 0 <= k < |kept| && kept[k] == e;
      assert after[k] == e;
    }
  }

  lemma {:induction false} PutKeepsPlace(entries: seq<Entry>, made: Entry, at: nat)
    requires IndexOf(entries, made.key) == Some(at)
    ensures IndexOf(entries[at := made], made.key) == Some(at)
  {
    if at > 0 {
      assert entries[at := made][1..] == entries[1..][at - 1 := made];
      PutKeepsPlace(entries[1..], made, at - 1);
    }
  }

  lemma {:induction false} IndexOfNew(entries: seq<Entry>, made: Entry)
    requires IndexOf(entries, made.key).None?
    ensures IndexOf(entries + [made], made.key) == Some(|entries|)
  {
    if entries != [] {
      assert (entries + [made])[1..] == entries[1..] + [made];
      IndexOfNew(entries[1..], made);
    }
  }

  class Cache {
    const hashing: Hashing
    const ttl: int
    const size: nat
    var entries: seq<Entry>

    constructor (hashing: Hashing, ttl: int, size: nat)
      requires size >= 1
      ensures this.hashing == hashing && this.ttl == ttl && this.size == size && entries == []
      ensures Valid()
    {
      this.hashing, this.ttl, this.size, entries := hashing, ttl, size, [];
    }

    /** Every entry stands for a verification that succeeded, and there are no more of them
        than the configured size. */
    ghost predicate Valid()
      reads this
    {
      && 1 <= size && |entries| <= size
      && forall k | 0 <= k < |entries| :: Verified(entries[k].key)
    }

    ghost predicate Verified(key: string) {
      exists password, stored ::
        NulFree(stored) && key == Key(hashing, hashing.owner(stored), password, stored) && hashing.verifies(stored, password)
    }

    /** Is this key remembered and not expired; an expired one is dropped on the way. */
    method Holds(key: string, now: int) returns (held: bool)
      requires Valid()
      modifies this`entries
      ensures Valid()
      ensures var at := IndexOf(old(entries), key);
              && (held <==> at.Some? && old(entries)[at.value].expires > now)
              && entries == if at.Some? && !held then Dropped(old(entries), at.value) else old(entries)
      ensures held ==> Verified(key)
    {
      var at := IndexOf(entries, key);
      if at.None? {
        return false;
      }
      if entries[at.value].expires <= now {
        var left := entries[..at.value] + entries[at.value + 1..];
        assert forall k | 0 <= k < |left| :: left[k] == entries[if k < at.value then k else k + 1];
        entries := left;
        return false;
      }
      return true;
    }

    /** Remember a verification, making room first. */
    method Remember(key: string, now: int)
      requires Valid() && Verified(key)
      modifies this`entries
      ensures Valid()
      ensures entries == Put(WithRoom(old(entries), now, size), Entry(key, now + ttl))
    {
      if |entries| >= size {
        ghost var kept := Unexpired(entries, now);
        entries := Unexpired(entries, now);
        assert forall k | 0 <= k < |kept| :: kept[k] in old(entries);
        ghost var gone := 0;
        while |entries| >= size
          invariant 0 <= gone <= |kept| && entries == kept[gone..] && |kept| <= size
          invariant gone > 0 ==> |entries| >= size - 1
          invariant forall k | 0 <= k < |entries| :: Verified(entries[k].key)
        {
          entries := entries[1..];
          gone := gone + 1;
        }
      }
      assert entries == WithRoom(old(entries), now, size);
      var at := IndexOf(entries, key);
      var made := Entry(key, now + ttl);
      if at.Some? {
        entries := entries[at.value := made];
      } else {
        entries := entries + [made];
      }
    }

    method ForgetAll()
      requires Valid()
      modifies this`entries
      ensures Valid() && entries == []
    {
      entries := [];
    }

    /** The remembered answer, or the hash: for any history of verifications, expiries,
        evictions and clears, what hashing alone would answer. */
    method Verify(subject: string, password: string, stored: string, now: int) returns (ok: bool)
      requires Valid() && CollisionFree(hashing) && MayCheck(hashing, subject, stored)
      modifies this`entries
      ensures Valid()
      ensures ok == hashing.verifies(stored, password)
    {
      var key := Key(hashing, subject, password, stored);
      var held := Holds(key, now);
      if held {
        ghost var p, t :| NulFree(t) && key == Key(hashing, hashing.owner(t), p, t) && hashing.verifies(t, p);
        SameStored(hashing, subject, password, stored, hashing.owner(t), p, t);
        KeyNamesCredential(hashing, subject, password, stored, hashing.owner(t), p, t);
        return true;
      }
      if !hashing.verifies(stored, password) {
        return false;
      }
      Remember(key, now);
      return true;
    }
  }
}
