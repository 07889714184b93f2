/** The cache-backed login throttler (auth_throttle.go) and the per-process admission slots (auth/throttle.go). */
module LoginThrottler {
  import opened Options
  import opened ThrottleCounter
  import ThrottleDelay

  type Duration = ThrottleDelay.Duration

  /** expirationFor: a ttl that is not positive means for ever. */
  function ExpiryAfter(now: Time, ttl: int): Option<Time> {
    if ttl <= 0 then None else Some(now + ttl)
  }

  /** The cache store the counters live in. Each method is one atomic operation at the instant now. */
  class CacheStore {
    var items: map<string, Bucket>
    var now: Time

    constructor ()
      ensures items == map[] && now == 0
    {
      items, now := map[], 0;
    }

    /** Adds to a key nobody holds; what it stores counts from now until the ttl is over, and a live key is left as it
        was at every later instant. */
    method Add(key: string, ttl: int) returns (added: bool)
      modifies this`items
      ensures added <==> !Live(BucketOf(old(items), key), now)
      ensures !added ==> items == old(items)
      ensures added ==> BucketOf(items, key) == Present(1, ExpiryAfter(now, ttl))
      ensures forall t: Time :: now <= t ==>
        AttemptsIn(items, key, t) ==
        if !added then AttemptsIn(old(items), key, t) else if ttl <= 0 || t < now + ttl then 1 else 0
      ensures SameElsewhere(old(items), items, key)
    {
      if key in items && items[key].Present? && (items[key].expiry.None? || now < items[key].expiry.value) {
        return false;
      }
      items := items[key := Present(1, ExpiryAfter(now, ttl))];
      return true;
    }

    /** Counts one more than the key is worth now. A live key keeps its deadline; any other starts again at 1 with no
        deadline at all. */
    method Increment(key: string) returns (count: nat)
      modifies this`items
      ensures count == AttemptsIn(old(items), key, now) + 1
      ensures BucketOf(items, key).Present? && BucketOf(items, key).count == count
      ensures Live(BucketOf(old(items), key), now) ==> BucketOf(items, key).expiry == BucketOf(old(items), key).expiry
      ensures !Live(BucketOf(old(items), key), now) ==> NeverExpires(BucketOf(items, key))
      ensures SameElsewhere(old(items), items, key)
    {
      var live := key in items && items[key].Present? && (items[key].expiry.None? || now < items[key].expiry.value);
      var current := 0;
      var expiry := None;
      if live {
        current, expiry := items[key].count, items[key].expiry;
      }
      items := items[key := Present(current + 1, expiry)];
      return current + 1;
    }

    method Put(key: string, count: nat, ttl: int)
      modifies this`items
      ensures BucketOf(items, key) == Present(count, ExpiryAfter(now, ttl))
      ensures SameElsewhere(old(items), items, key)
    {
      items := items[key := Present(count, ExpiryAfter(now, ttl))];
    }

    method Forget(key: string)
      modifies this`items
      ensures items == old(items) - {key}
    {
      items := items - {key};
    }

    /** A live key is always seen, with its count. So is one at the very instant it expires, which an add no longer
        respects; a later read sees nothing. */
    method Get(key: string) returns (count: Option<nat>)
      ensures Live(BucketOf(items, key), now) ==> count == Some(AttemptsIn(items, key, now))
      ensures BucketOf(items, key).Absent? ==> count == None
      ensures BucketOf(items, key).Present? && BucketOf(items, key).expiry == Some(now) ==>
        count == Some(BucketOf(items, key).count) && !Live(BucketOf(items, key), now)
      ensures forall e: Time, n: nat :: BucketOf(items, key) == Present(n, Some(e)) && e < now ==> count == None
    {
      if key !in items || items[key].Absent? {
        return None;
      }
      if items[key].expiry.Some? && items[key].expiry.value < now {
        return None;
      }
      return Some(items[key].count);
    }
  }

  /** No key but this one differs. */
  ghost predicate SameElsewhere(before: map<string, Bucket>, after: map<string, Bucket>, key: string) {
    forall k :: k != key ==> BucketOf(after, k) == BucketOf(before, k)
  }

  function BucketOf(items: map<string, Bucket>, key: string): Bucket {
    if key in items then items[key] else Absent
  }

  /** What a read gives. At the very instant of expiry a read still sees the count an add no longer sees. */
  function ReadCount(items: map<string, Bucket>, key: string, now: Time): Option<nat> {
    var b := BucketOf(items, key);
    if b.Present? && (b.expiry.None? || now <= b.expiry.value) then Some(b.count) else None
  }

  /** The attempts counted in the key's current window. */
  function AttemptsIn(items: map<string, Bucket>, key: string, now: Time): nat {
    if Live(BucketOf(items, key), now) then BucketOf(items, key).count else 0
  }

  const CACHE_PREFIX := "velocity:auth:login:"
  const TRIAL_SUFFIX := ":trial"
  const PAIR_PREFIX := "login:"
  const IDENTIFIER_PREFIX := "login:id:"
  const IP_PREFIX := "login:ip:"

  datatype Limits = Limits(pair: nat, identifier: nat, ip: nat)

  /** auth_throttle.go, limitFor. */
  function LimitFor(limits: Limits, key: string): nat {
    if IDENTIFIER_PREFIX <= key then limits.identifier
    else if IP_PREFIX <= key then limits.ip
    else limits.pair
  }

  predicate HexDigest(digest: string) {
    forall i :: 0 <= i < |digest| ==> '0' <= digest[i] <= '9' || 'a' <= digest[i] <= 'f'
  }

  /** The keys ThrottleKeys derives (a dimension's prefix and a hex digest) each get their own dimension's cap. */
  lemma DimensionsGetTheirOwnCap(limits: Limits, digest: string)
    requires HexDigest(digest)
    ensures LimitFor(limits, PAIR_PREFIX + digest) == limits.pair
    ensures LimitFor(limits, IDENTIFIER_PREFIX + digest) == limits.identifier
    ensures LimitFor(limits, IP_PREFIX + digest) == limits.ip
  {
    var pair := PAIR_PREFIX + digest;
    if |digest| > 0 { assert pair[6] == digest[0]; }
    assert IDENTIFIER_PREFIX[6] == 'i' && IP_PREFIX[6] == 'i';
    assert (IP_PREFIX + digest)[7] == 'p' && IDENTIFIER_PREFIX[7] == 'd';
    assert IDENTIFIER_PREFIX <= IDENTIFIER_PREFIX + digest && IP_PREFIX <= IP_PREFIX + digest;
  }

  /** How one store operation goes: a failed one may have landed. */
  datatype Fault = Works | Fails(landed: bool)

  datatype Faults = Faults(add: Fault, increment: Fault, put: Fault)

  predicate Landed(f: Fault) {
    f.Works? || f.landed
  }

  const DEFAULT_DECAY := 60 * ThrottleDelay.SECOND

  lemma FrontCancels(p: string, a: string, b: string)
    ensures p + a == p + b <==> a == b
  {
    assert (p + a)[|p|..] == a && (p + b)[|p|..] == b;
  }

  lemma BackCancels(a: string, b: string, p: string)
    ensures a + p == b + p <==> a == b
  {
    assert (a + p)[..|a + p| - |p|] == a && (b + p)[..|b + p| - |p|] == b;
  }

  lemma Regrouped(a: string, b: string, c: string)
    ensures (a + b) + c == a + (b + c)
  {
  }

  class CacheLoginThrottler {
    const store: CacheStore
    const limits: Limits
    const decay: Span
    const delayBase: Duration
    const delayMax: Duration

    constructor (store: CacheStore, limits: Limits, decay: int, delayBase: Duration, delayMax: Duration)
      ensures this.store == store && this.limits == limits
      ensures this.decay == if decay <= 0 then DEFAULT_DECAY else decay
      ensures this.delayBase == delayBase && this.delayMax == delayMax
    {
      this.store, this.limits := store, limits;
      this.decay := if decay <= 0 then DEFAULT_DECAY else decay;
      this.delayBase, this.delayMax := delayBase, delayMax;
    }

    function CacheKey(key: string): string {
      CACHE_PREFIX + key
    }

    function SlotKey(key: string): string {
      CacheKey(key) + TRIAL_SUFFIX
    }

    /** Two throttle keys have two cache keys and two slot keys; a slot key is a count key of exactly one throttle key,
        the one that ends in the slot's suffix. */
    lemma KeysAreApart(k: string, l: string)
      ensures CacheKey(k) == CacheKey(l) <==> k == l
      ensures SlotKey(k) == SlotKey(l) <==> k == l
      ensures SlotKey(k) == CacheKey(l) <==> l == k + TRIAL_SUFFIX
    {
      FrontCancels(CACHE_PREFIX, k, l);
      BackCancels(CacheKey(k), CacheKey(l), TRIAL_SUFFIX);
      Regrouped(CACHE_PREFIX, k, TRIAL_SUFFIX);
      FrontCancels(CACHE_PREFIX, k + TRIAL_SUFFIX, l);
    }

    /** So no key ThrottleKeys derives has its count where another's slot is. */
    lemma SlotsMeetNoCount(k: string, prefix: string, digest: string)
      requires prefix in {PAIR_PREFIX, IDENTIFIER_PREFIX, IP_PREFIX} && HexDigest(digest)
      ensures SlotKey(k) != CacheKey(prefix + digest)
    {
      var l := prefix + digest;
      KeysAreApart(k, l);
      assert l == k + TRIAL_SUFFIX ==> l[|l| - 1] == 'l';
      assert l[|l| - 1] == if digest == "" then prefix[|prefix| - 1] else digest[|digest| - 1];
    }

    /** What the throttler knows of key is the same in both stores. */
    ghost predicate SameFor(before: map<string, Bucket>, after: map<string, Bucket>, now: Time, key: string) {
      && AttemptsIn(after, CacheKey(key), now) == AttemptsIn(before, CacheKey(key), now)
      && (AllowedBy(after, now, key) <==> AllowedBy(before, now, key))
      && DelayBy(after, now, key) == DelayBy(before, now, key)
    }

    function DelayFor(excess: int): Duration {
      if delayBase <= 0 then 0 else ThrottleDelay.ProgressiveDelay(excess, delayBase, delayMax)
    }

    /** There is a delay for this excess, and the doubling that computes it neither wraps around nor is cut short. */
    predicate DelayIsExact(excess: int) {
      && excess >= 1 && delayBase > 0
      && !ThrottleDelay.WrapsShort(delayBase, delayMax, excess - 1)
      && !ThrottleDelay.CutShort(delayBase, delayMax, excess - 1)
    }

    /** What Allow answers from the stored count. */
    predicate AllowedBy(items: map<string, Bucket>, now: Time, key: string) {
      var count := ReadCount(items, CacheKey(key), now);
      count.None? || count.value < LimitFor(limits, key)
    }

    /** What Delay answers from the stored count. */
    function DelayBy(items: map<string, Bucket>, now: Time, key: string): Duration {
      var count := ReadCount(items, CacheKey(key), now);
      if count.None? then 0 else DelayFor(count.value - LimitFor(limits, key))
    }

    /** What an attempt is counted as: one more than the window holds, and one more again when the add that opened the
        window landed but reported a failure. */
    function CountedAs(items: map<string, Bucket>, now: Time, key: string, faults: Faults): nat {
      AttemptsIn(items, CacheKey(key), now) + 1
      + if !Live(BucketOf(items, CacheKey(key)), now) && faults.add.Fails? && faults.add.landed then 1 else 0
    }

    /** The attempt could not be counted: the increment it needed failed. */
    predicate Uncounted(items: map<string, Bucket>, now: Time, key: string, faults: Faults) {
      faults.increment.Fails? && (faults.add.Fails? || Live(BucketOf(items, CacheKey(key)), now))
    }

    /** The method's three store operations, each as its fault has it. */
    method TryAdd(cacheKey: string, fault: Fault) returns (added: bool)
      modifies store`items
      ensures added <==> fault.Works? && !Live(BucketOf(old(store.items), cacheKey), store.now)
      ensures BucketOf(store.items, cacheKey) ==
        if Landed(fault) then AfterAdd(BucketOf(old(store.items), cacheKey), decay, store.now)
        else BucketOf(old(store.items), cacheKey)
      ensures SameElsewhere(old(store.items), store.items, cacheKey)
    {
      added := false;
      if Landed(fault) {
        added := store.Add(cacheKey, decay);
        added := added && fault.Works?;
      }
    }

    method TryIncrement(cacheKey: string, fault: Fault) returns (count: Option<nat>)
      modifies store`items
      ensures BucketOf(store.items, cacheKey) ==
        if Landed(fault) then AfterIncrement(BucketOf(old(store.items), cacheKey), store.now)
        else BucketOf(old(store.items), cacheKey)
      ensures count == if fault.Works? then Some(AttemptsIn(old(store.items), cacheKey, store.now) + 1) else None
      ensures SameElsewhere(old(store.items), store.items, cacheKey)
    {
      count := None;
      if Landed(fault) {
        var n := store.Increment(cacheKey);
        count := if fault.Works? then Some(n) else None;
      }
    }

    /** One attempt with no other between its operations: it keeps the window's deadline, opens a new window when there
        is none, and touches no other key. Not counted and nothing landed, it leaves the key as it was. */
    method CountAttempt(key: string, faults: Faults) returns (count: Option<nat>)
      modifies store`items
      ensures count.None? <==> Uncounted(old(store.items), store.now, key, faults)
      ensures count.Some? ==> count.value == CountedAs(old(store.items), store.now, key, faults)
      ensures count.None? && !Landed(faults.add) && !Landed(faults.increment) ==>
        BucketOf(store.items, CacheKey(key)) == BucketOf(old(store.items), CacheKey(key))
      ensures count.None? && Live(BucketOf(old(store.items), CacheKey(key)), store.now) && !Landed(faults.increment) ==>
        BucketOf(store.items, CacheKey(key)) == BucketOf(old(store.items), CacheKey(key))
      ensures count.Some? && Landed(faults.put) ==>
        var was := BucketOf(old(store.items), CacheKey(key));
        BucketOf(store.items, CacheKey(key)) ==
        Present(count.value, if Live(was, store.now) && was.count > 0 then was.expiry else Some(store.now + decay))
      ensures SameElsewhere(old(store.items), store.items, CacheKey(key))
      ensures forall k :: k != key ==> SameFor(old(store.items), store.items, store.now, k)
    {
      var cacheKey := CacheKey(key);
      forall k | k != key
        ensures CacheKey(k) != cacheKey
      {
        KeysAreApart(k, key);
      }
      var added := TryAdd(cacheKey, faults.add);
      if added {
        return Some(1);
      }
      count := TryIncrement(cacheKey, faults.increment);
      if count == Some(1) && Landed(faults.put) {
        store.Put(cacheKey, 1, decay);
      }
    }

    /** auth_throttle.go, Reserve: within the cap exactly when the count is, and open when the store fails. */
    method Reserve(key: string, faults: Faults) returns (admitted: bool, delay: Duration)
      modifies store`items
      ensures Uncounted(old(store.items), store.now, key, faults) ==> admitted
      ensures !Uncounted(old(store.items), store.now, key, faults) ==>
        (admitted <==> CountedAs(old(store.items), store.now, key, faults) <= LimitFor(limits, key))
      ensures admitted ==> delay == 0
      ensures !admitted && Landed(faults.put) ==> delay == DelayBy(store.items, store.now, key)
      ensures !admitted && delayBase > 0 ==> delay > 0
      ensures faults.increment.Works? && Live(BucketOf(old(store.items), CacheKey(key)), store.now) ==>
        (admitted <==> AllowedBy(old(store.items), store.now, key))
      ensures var excess := CountedAs(old(store.items), store.now, key, faults) - LimitFor(limits, key);
        !admitted && DelayIsExact(excess) ==> delay == ThrottleDelay.Promised(excess, delayBase, delayMax)
      ensures forall k :: k != key ==> SameFor(old(store.items), store.items, store.now, k)
    {
      var count := CountAttempt(key, faults);
      if count.None? {
        return true, 0;
      }
      var limit := LimitFor(limits, key);
      if count.value <= limit {
        return true, 0;
      }
      if DelayIsExact(count.value - limit) {
        ThrottleDelay.ExactWhenNoWrap(count.value - limit, delayBase, delayMax);
      }
      return false, DelayFor(count.value - limit);
    }

    method Allow(key: string) returns (allowed: bool)
      ensures allowed == AllowedBy(store.items, store.now, key)
    {
      var count := store.Get(CacheKey(key));
      if count.None? {
        return true;
      }
      return count.value < LimitFor(limits, key);
    }

    /** The delay an attempt pays. After a Reserve that denied, it is the delay that Reserve reported. */
    method Delay(key: string) returns (delay: Duration)
      ensures delay == DelayBy(store.items, store.now, key)
      ensures AllowedBy(store.items, store.now, key) ==> delay == 0
      ensures var count := ReadCount(store.items, CacheKey(key), store.now);
        count.Some? && DelayIsExact(count.value - LimitFor(limits, key)) ==>
          delay == ThrottleDelay.Promised(count.value - LimitFor(limits, key), delayBase, delayMax)
    {
      var count := store.Get(CacheKey(key));
      if count.None? || delayBase <= 0 {
        return 0;
      }
      if DelayIsExact(count.value - LimitFor(limits, key)) {
        ThrottleDelay.ExactWhenNoWrap(count.value - LimitFor(limits, key), delayBase, delayMax);
      }
      return DelayFor(count.value - LimitFor(limits, key));
    }

    /** One trial slot per key, held for hold; a store failure admits, and takes a free slot all the same if the add
        landed. */
    method Admit(key: string, hold: int, fault: Fault) returns (admitted: bool)
      modifies store`items
      ensures hold <= 0 || fault.Fails? ==> admitted
      ensures hold <= 0 || !Landed(fault) ==> store.items == old(store.items)
      ensures hold > 0 && fault.Works? ==> (admitted <==> !Live(BucketOf(old(store.items), SlotKey(key)), store.now))
      ensures hold > 0 && Landed(fault) ==>
        BucketOf(store.items, SlotKey(key)) ==
        if Live(BucketOf(old(store.items), SlotKey(key)), store.now) then BucketOf(old(store.items), SlotKey(key))
        else Present(1, Some(store.now + hold))
      ensures SameElsewhere(old(store.items), store.items, SlotKey(key))
      ensures forall k :: k != key + TRIAL_SUFFIX ==> SameFor(old(store.items), store.items, store.now, k)
    {
      forall k | k != key + TRIAL_SUFFIX
        ensures CacheKey(k) != SlotKey(key)
      {
        KeysAreApart(key, k);
      }
      if hold <= 0 {
        return true;
      }
      var added := true;
      if Landed(fault) {
        added := store.Add(SlotKey(key), hold);
      }
      return fault.Fails? || added;
    }

    /** A login that succeeded clears the key's count and its trial slot, each as far as the store lets it: errors are
        dropped, and no other key is touched. A count that was cleared starts a new window. */
    method RecordSuccess(key: string, count: Fault, slot: Fault)
      modifies store`items
      ensures Landed(count) ==> AttemptsIn(store.items, CacheKey(key), store.now) == 0
      ensures store.items == old(store.items)
        - (if Landed(count) then {CacheKey(key)} else {}) - (if Landed(slot) then {SlotKey(key)} else {})
      ensures forall k | k != key && k != key + TRIAL_SUFFIX :: SameFor(old(store.items), store.items, store.now, k)
    {
      forall k | k != key && k != key + TRIAL_SUFFIX
        ensures CacheKey(k) != CacheKey(key) && CacheKey(k) != SlotKey(key)
      {
        KeysAreApart(key, k);
      }
      if Landed(count) {
        store.Forget(CacheKey(key));
      }
      if Landed(slot) {
        store.Forget(SlotKey(key));
      }
    }
  }

  // ---------------------------------------------------------------- LocalLoginAdmitter

  const SWEEP_AT := 1024

  type Slots = map<string, int>

  predicate SlotHeld(slots: Slots, key: string, now: int) {
    key in slots && now < slots[key]
  }

  function Swept(slots: Slots, now: int): Slots {
    if |slots| >= SWEEP_AT then map k | k in slots && now < slots[k] :: slots[k] else slots
  }

  /** The slots an Admit leaves: the sweep, and the new slot when it admits. */
  function AfterAdmit(slots: Slots, key: string, hold: int, now: int): Slots {
    if hold <= 0 then slots
    else if SlotHeld(slots, key, now) then Swept(slots, now)
    else Swept(slots, now)[key := now + hold]
  }

  predicate Admits(slots: Slots, key: string, hold: int, now: int) {
    hold <= 0 || !SlotHeld(slots, key, now)
  }

  class LocalLoginAdmitter {
    var slots: Slots

    constructor ()
      ensures slots == map[]
    {
      slots := map[];
    }

    method Admit(key: string, hold: int, now: int) returns (admitted: bool)
      modifies this
      ensures admitted <==> Admits(old(slots), key, hold, now)
      ensures slots == AfterAdmit(old(slots), key, hold, now)
      ensures forall k, t :: k != key && now <= t ==> (SlotHeld(slots, k, t) <==> SlotHeld(old(slots), k, t))
    {
      if hold <= 0 {
        return true;
      }
      if |slots| >= SWEEP_AT {
        var todo := slots.Keys;
        while todo != {}
          invariant todo <= slots.Keys <= old(slots).Keys
          invariant forall k :: k in slots ==> slots[k] == old(slots)[k]
          invariant forall k :: k in old(slots) && k !in todo ==> (k in slots <==> now < old(slots)[k])
          decreases |todo|
        {
          var k :| k in todo;
          todo := todo - {k};
          if slots[k] <= now {
            slots := slots - {k};
          }
        }
      }
      assert slots == Swept(old(slots), now);
      if key in slots && now < slots[key] {
        return false;
      }
      slots := slots[key := now + hold];
      return true;
    }

    method Release(key: string)
      modifies this
      ensures slots == old(slots) - {key}
    {
      slots := slots - {key};
    }
  }

  datatype SlotEvent = TryAdmit(key: string, hold: int, now: int) | Release(key: string)

  function SlotsAfter(slots: Slots, e: SlotEvent): Slots {
    match e
    case TryAdmit(key, hold, now) => AfterAdmit(slots, key, hold, now)
    case Release(key) => slots - {key}
  }

  function SlotsAfterAll(slots: Slots, events: seq<SlotEvent>): Slots
    decreases |events|
  {
    if events == [] then slots else SlotsAfterAll(SlotsAfter(slots, events[0]), events[1..])
  }

  /** Nothing releases key, and no reading is after now. */
  predicate KeepsSlot(events: seq<SlotEvent>, key: string, now: int) {
    forall i :: 0 <= i < |events| ==> if events[i].TryAdmit? then events[i].now <= now else events[i].key != key
  }

  /** A slot keeps every trial of its key out until it lapses or is released, sweeps included: a trial admitted at now
      after any events that did not release the key comes no earlier than the slot's end. */
  lemma {:induction false} SlotExcludes(slots: Slots, key: string, until: int, events: seq<SlotEvent>, hold: int,
                                        now: int)
    requires key in slots && until <= slots[key]
    requires KeepsSlot(events, key, now)
    requires hold > 0 && Admits(SlotsAfterAll(slots, events), key, hold, now)
    ensures until <= now
    decreases |events|
  {
    if events != [] {
      var next := SlotsAfter(slots, events[0]);
      assert KeepsSlot(events[1..], key, now);
      if key in next && until <= next[key] {
        SlotExcludes(next, key, until, events[1..], hold, now);
      }
    }
  }
}
