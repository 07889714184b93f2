/** The two in-memory stores behind the JWT manager (auth/jwt.go): the blacklist of token ids and the
    per-user refresh generation counter. The functions say what one lock section does to a store's map;
    the classes run those sections in place, and the refresh protocol interleaves them. */
module Blacklist {

  /** An instant. 0 is Go's zero time, and no clock reads earlier. */
  type Time = nat

  type Entries = map<string, Time>

  /** jti is on the blacklist at now: it has an entry, and now is not after the entry's expiry. */
  predicate Live(entries: Entries, jti: string, now: Time) {
    jti in entries && now <= entries[jti]
  }

  /** Whether Add, at now, consumes jti. */
  predicate AddConsumes(entries: Entries, jti: string, expiresAt: Time, now: Time) {
    now < expiresAt && !Live(entries, jti, now)
  }

  /** The entries Add leaves. */
  function AfterAdd(entries: Entries, jti: string, expiresAt: Time, now: Time): Entries {
    if expiresAt <= now then entries
    else if Live(entries, jti, now) then
      if entries[jti] < expiresAt then entries[jti := expiresAt] else entries
    else entries[jti := expiresAt]
  }

  /** The entries the second lock section of IsBlacklisted leaves, when the first one read expiresAt. */
  function AfterDrop(entries: Entries, jti: string, expiresAt: Time): Entries {
    if jti in entries && entries[jti] == expiresAt then entries - {jti} else entries
  }

  /** The entries Cleanup leaves. */
  function AfterCleanup(entries: Entries, now: Time): Entries {
    map jti | jti in entries && now <= entries[jti] :: entries[jti]
  }

  /** Every entry still live at now is kept, with an expiry no earlier. Each store operation does this. */
  ghost predicate KeepsLive(before: Entries, after: Entries, now: Time) {
    forall jti :: Live(before, jti, now) ==> jti in after && before[jti] <= after[jti]
  }

  /** What Add means: from now on, jti is blacklisted exactly when it was or the new deadline covers it, and
      no other id is touched. */
  lemma AddMeaning(entries: Entries, jti: string, expiresAt: Time, now: Time)
    ensures forall t: Time :: now <= t ==>
      (Live(AfterAdd(entries, jti, expiresAt, now), jti, t) <==>
       Live(entries, jti, t) || (now < expiresAt && t <= expiresAt))
    ensures forall k :: k != jti ==> (k in AfterAdd(entries, jti, expiresAt, now) <==> k in entries)
    ensures forall k :: k != jti && k in entries ==> AfterAdd(entries, jti, expiresAt, now)[k] == entries[k]
    ensures KeepsLive(entries, AfterAdd(entries, jti, expiresAt, now), now)
  {}

  /** The default blacklist (auth/jwt.go, InMemoryBlacklistStore). Each method is one lock section; the clock
      reading the section takes is a parameter. */
  class InMemoryBlacklistStore {
    var entries: Entries

    constructor ()
      ensures entries == map[]
    {
      entries := map[];
    }

    method Add(jti: string, expiresAt: Time, now: Time) returns (added: bool)
      modifies this
      ensures entries == AfterAdd(old(entries), jti, expiresAt, now)
      ensures added <==> now < expiresAt && !Live(old(entries), jti, now)
      ensures forall t: Time :: now <= t ==>
        (Live(entries, jti, t) <==> Live(old(entries), jti, t) || (now < expiresAt && t <= expiresAt))
      ensures KeepsLive(old(entries), entries, now)
    {
      if expiresAt <= now {
        return false;
      }
      if jti in entries && now <= entries[jti] {
        if entries[jti] < expiresAt {
          entries := entries[jti := expiresAt];
        }
        return false;
      }
      entries := entries[jti := expiresAt];
      return true;
    }

    /** Both lock sections with nothing between them; the protocol module puts other callers there. */
    method IsBlacklisted(jti: string, now: Time) returns (listed: bool)
      modifies this
      ensures listed <==> Live(old(entries), jti, now)
      ensures KeepsLive(old(entries), entries, now)
      ensures entries == if listed || jti !in old(entries) then old(entries)
                         else AfterDrop(old(entries), jti, old(entries)[jti])
    {
      if jti !in entries {
        return false;
      }
      var expiresAt := entries[jti];
      if expiresAt < now {
        if jti in entries && entries[jti] == expiresAt {
          entries := entries - {jti};
        }
        return false;
      }
      return true;
    }

    method Cleanup(now: Time)
      modifies this
      ensures entries == AfterCleanup(old(entries), now)
      ensures forall jti, t: Time :: now <= t ==> (Live(entries, jti, t) <==> Live(old(entries), jti, t))
      ensures forall jti :: jti in entries ==> Live(entries, jti, now)
    {
      var todo := entries.Keys;
      while todo != {}
        invariant todo <= entries.Keys <= old(entries).Keys
        invariant forall jti :: jti in entries ==> entries[jti] == old(entries)[jti]
        invariant forall jti :: jti in old(entries) && jti !in todo ==>
          (jti in entries <==> now <= old(entries)[jti])
        decreases |todo|
      {
        var jti :| jti in todo;
        todo := todo - {jti};
        if entries[jti] < now {
          entries := entries - {jti};
        }
      }
      assert entries == AfterCleanup(old(entries), now);
    }
  }

  type Generations = map<string, nat>

  /** The generation a user is at: 0 when no bump was recorded, and always 0 for the empty key. */
  function CurrentGeneration(counts: Generations, userKey: string): nat {
    if userKey != "" && userKey in counts then counts[userKey] else 0
  }

  function AfterBump(counts: Generations, userKey: string): Generations {
    if userKey == "" then counts else counts[userKey := CurrentGeneration(counts, userKey) + 1]
  }

  /** Generations only grow. */
  ghost predicate Grows(before: Generations, after: Generations) {
    forall key :: CurrentGeneration(before, key) <= CurrentGeneration(after, key)
  }

  /** The default refresh generation counter (auth/jwt.go, InMemoryRefreshGenerationStore). */
  class InMemoryRefreshGenerationStore {
    var counts: Generations

    constructor ()
      ensures counts == map[]
    {
      counts := map[];
    }

    method Current(userKey: string) returns (generation: nat)
      ensures generation == CurrentGeneration(counts, userKey)
    {
      if userKey == "" {
        return 0;
      }
      generation := if userKey in counts then counts[userKey] else 0;
    }

    method Bump(userKey: string) returns (generation: nat)
      modifies this
      ensures counts == AfterBump(old(counts), userKey)
      ensures Grows(old(counts), counts)
      ensures forall key :: key != userKey ==>
        CurrentGeneration(counts, key) == CurrentGeneration(old(counts), key)
      ensures userKey != "" ==> generation == CurrentGeneration(old(counts), userKey) + 1
      ensures generation == CurrentGeneration(counts, userKey)
    {
      if userKey == "" {
        return 0;
      }
      generation := (if userKey in counts then counts[userKey] else 0) + 1;
      counts := counts[userKey := generation];
    }
  }
}
