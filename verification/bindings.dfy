/** The bindings New captures from the owned fields, and how a boundary moves them (rebind_owned.go,
    boundConsumers; rebind_cells.go; auth_throttle.go, rebindLoginThrottler; scheduler_cache_locker.go,
    rebindSchedulerLocker). */
module Bindings {
  import opened Options
  import opened UnwrapChain
  import opened Retire

  datatype Database = Database(sql: Option<Instance>, driver: string)

  /** What a cache manager's DefaultStore gives. */
  datatype DefaultStore = StoreError | Store(store: Option<Instance>)

  /** What the instances are: the type assertions and capability probes a binding makes. */
  datatype Caps = Caps(
    incomparable: set<Instance>,
    ormManagers: set<Instance>,
    encryptors: set<Instance>,
    mailers: set<Instance>,
    queueDrivers: set<Instance>,
    schedulers: set<Instance>,
    databases: map<Instance, Database>,
    caches: map<Instance, DefaultStore>,
    sessionStores: set<Instance>,   // stores with compare-and-swap and the set operations
    sharedLocks: set<Instance>,     // caches whose default store locks across processes
    rotators: set<Instance>,        // CSRF values that rotate tokens
    rotated: set<Instance>)         // auth managers that take a rotator

  datatype Locker = InProcess | SharedOver(cache: Instance) | Foreign(id: nat)

  datatype Channel = Channel(held: Option<Instance>, driver: string)

  /** Everything the boundaries re-bind. A cell that was never bound is None. */
  datatype Wiring = Wiring(
    ormDefault: Option<Instance>,
    cryptoCell: Option<Option<Instance>>,
    cryptoConsumers: nat,
    sessionCacheCell: Option<Instance>,
    mailCell: Option<Instance>,
    dbChannel: Option<Channel>,
    dbChannelDB: Option<Instance>,
    throttlerStore: Option<Option<Instance>>,
    builtScheduler: Option<Instance>,
    builtLocker: Locker,
    schedulerLocker: Locker,
    batchQueue: Option<Instance>,
    rotatorOf: map<Instance, Option<Instance>>,
    errorPages: set<Instance>)

  /** v when it is one of kind, else none: a Go type assertion with the ok dropped. */
  function As(kind: set<Instance>, v: Option<Instance>): Option<Instance> {
    if v.Some? && v.value in kind then v else None
  }

  /** The default store of the cache v is, none without a cache or a store. */
  function StoreOf(caps: Caps, v: Option<Instance>): Option<Instance> {
    if v.Some? && v.value in caps.caches && caps.caches[v.value].Store? then caps.caches[v.value].store else None
  }

  function DatabaseOf(caps: Caps, v: Option<Instance>): Database {
    if v.Some? && v.value in caps.databases then caps.databases[v.value] else Database(None, "")
  }

  function LockerOver(caps: Caps, v: Option<Instance>): Locker {
    if v.Some? && v.value in caps.caches && v.value in caps.sharedLocks then SharedOver(v.value) else InProcess
  }

  datatype Commit =
    | MoveORMDefault(next: Option<Instance>)
    | StoreCrypto(next: Option<Instance>)
    | StoreSessionCache(backend: Instance)
    | StoreMail(next: Option<Instance>)
    | PointChannel(db: Database)
    | SetThrottlerStore(store: Option<Instance>)
    | SetLocker(locker: Locker)
    | SetBatchQueue(queue: Option<Instance>)
    | InstallRotator(auth: Instance, rotator: Option<Instance>)
    | InstallErrorPage(handler: Instance)

  function Apply(wr: Wiring, commit: Commit): Wiring {
    match commit
    case MoveORMDefault(next) => wr.(ormDefault := next)
    case StoreCrypto(next) => wr.(cryptoCell := Some(next))
    case StoreSessionCache(backend) => wr.(sessionCacheCell := Some(backend))
    case StoreMail(next) => wr.(mailCell := next)
    case PointChannel(db) =>
      if wr.dbChannel.None? then wr
      else wr.(dbChannel := Some(Channel(db.sql, if db.driver == "" then wr.dbChannel.value.driver else db.driver)),
               dbChannelDB := db.sql)
    case SetThrottlerStore(store) => wr.(throttlerStore := Some(store))
    case SetLocker(locker) => wr.(builtLocker := locker, schedulerLocker := locker)
    case SetBatchQueue(queue) => wr.(batchQueue := queue)
    case InstallRotator(auth, rotator) => wr.(rotatorOf := wr.rotatorOf[auth := rotator])
    case InstallErrorPage(handler) => wr.(errorPages := wr.errorPages + {handler})
  }

  datatype Prepared = Refused | Nothing | Will(commit: Commit)

  const CONSUMERS := 10

  /** The fields a consumer follows, in the order of boundConsumers. */
  function FieldsOf(k: nat): seq<nat>
    requires k < CONSUMERS
    ensures forall f :: f in FieldsOf(k) ==> f < OWNED_FIELDS
  {
    match k
    case 0 => [FIELD_DB]
    case 1 => [FIELD_CRYPTO]
    case 2 => [FIELD_CACHE]
    case 3 => [FIELD_MAIL]
    case 4 => [FIELD_DB]
    case 5 => [FIELD_CACHE]
    case 6 => [FIELD_CACHE, FIELD_SCHEDULER]
    case 7 => [FIELD_QUEUE]
    case 8 => [FIELD_CSRF, FIELD_AUTH]
    case _ => [FIELD_ERRORS]
  }

  predicate FieldChanged(w: World, prev: Owned, cur: Owned, f: nat)
    requires f < OWNED_FIELDS
  {
    (prev[f].Some? || cur[f].Some?) && !SameInstance(w, prev[f], cur[f])
  }

  predicate Changed(w: World, prev: Owned, cur: Owned, k: nat)
    requires k < CONSUMERS
  {
    exists f :: f in FieldsOf(k) && FieldChanged(w, prev, cur, f)
  }

  function PrepareORMDefault(caps: Caps, wr: Wiring, prev: Owned, cur: Owned): Prepared {
    var was := As(caps.ormManagers, prev[FIELD_DB]);
    var next := As(caps.ormManagers, cur[FIELD_DB]);
    if was.None? then
      if next.None? || wr.ormDefault.Some? then Nothing else Will(MoveORMDefault(next))
    else if wr.ormDefault != was then Nothing
    else Will(MoveORMDefault(next))
  }

  function PrepareEncryptor(caps: Caps, wr: Wiring, cur: Owned): Prepared {
    if wr.cryptoCell.None? then Nothing
    else if As(caps.encryptors, cur[FIELD_CRYPTO]).None? && wr.cryptoConsumers > 0 then Refused
    else Will(StoreCrypto(As(caps.encryptors, cur[FIELD_CRYPTO])))
  }

  function PrepareSessionCache(caps: Caps, wr: Wiring, cur: Owned): Prepared {
    if wr.sessionCacheCell.None? then Nothing
    else
      var store := StoreOf(caps, cur[FIELD_CACHE]);
      if store.None? || store.value !in caps.sessionStores then Refused else Will(StoreSessionCache(store.value))
  }

  function PrepareNotificationDB(caps: Caps, wr: Wiring, cur: Owned): Prepared {
    if wr.dbChannel.None? || wr.dbChannel.value.held != wr.dbChannelDB then Nothing
    else Will(PointChannel(DatabaseOf(caps, cur[FIELD_DB])))
  }

  function PrepareSchedulerLocker(caps: Caps, wr: Wiring, cur: Owned): Prepared {
    var sched := As(caps.schedulers, cur[FIELD_SCHEDULER]);
    if sched.None? || sched != wr.builtScheduler || wr.builtLocker != wr.schedulerLocker then Nothing
    else if LockerOver(caps, cur[FIELD_CACHE]) == wr.schedulerLocker then Nothing
    else Will(SetLocker(LockerOver(caps, cur[FIELD_CACHE])))
  }

  /** What consumer k's prepare answers. It reads the wiring as the boundary found it. */
  function Prepare(caps: Caps, wr: Wiring, prev: Owned, cur: Owned, k: nat): Prepared
    requires k < CONSUMERS
  {
    match k
    case 0 => PrepareORMDefault(caps, wr, prev, cur)
    case 1 => PrepareEncryptor(caps, wr, cur)
    case 2 => PrepareSessionCache(caps, wr, cur)
    case 3 => Will(StoreMail(As(caps.mailers, cur[FIELD_MAIL])))
    case 4 => PrepareNotificationDB(caps, wr, cur)
    case 5 => if wr.throttlerStore.None? then Nothing else Will(SetThrottlerStore(StoreOf(caps, cur[FIELD_CACHE])))
    case 6 => PrepareSchedulerLocker(caps, wr, cur)
    case 7 => Will(SetBatchQueue(As(caps.queueDrivers, cur[FIELD_QUEUE])))
    case 8 =>
      if As(caps.rotated, cur[FIELD_AUTH]).None? then Nothing
      else Will(InstallRotator(cur[FIELD_AUTH].value, As(caps.rotators, cur[FIELD_CSRF])))
    case _ => if cur[FIELD_ERRORS].None? then Nothing else Will(InstallErrorPage(cur[FIELD_ERRORS].value))
  }

  /** Consumer k does not refuse the boundary. A prepare that panics refuses. */
  predicate Accepts(caps: Caps, w: World, panics: set<nat>, wr: Wiring, prev: Owned, cur: Owned, k: nat)
    requires k < CONSUMERS
  {
    Changed(w, prev, cur, k) ==> k !in panics && !Prepare(caps, wr, prev, cur, k).Refused?
  }

  predicate AllAccept(caps: Caps, w: World, panics: set<nat>, wr: Wiring, prev: Owned, cur: Owned) {
    forall k :: 0 <= k < CONSUMERS ==> Accepts(caps, w, panics, wr, prev, cur, k)
  }

  /** The wiring with the commits of the first n consumers applied, each prepared from wr. */
  function WiredBy(caps: Caps, w: World, wr: Wiring, prev: Owned, cur: Owned, n: nat): Wiring
    requires n <= CONSUMERS
  {
    if n == 0 then wr
    else
      var before := WiredBy(caps, w, wr, prev, cur, n - 1);
      if Changed(w, prev, cur, n - 1) && Prepare(caps, wr, prev, cur, n - 1).Will?
      then Apply(before, Prepare(caps, wr, prev, cur, n - 1).commit) else before
  }

  function Rewired(caps: Caps, w: World, wr: Wiring, prev: Owned, cur: Owned): Wiring {
    WiredBy(caps, w, wr, prev, cur, CONSUMERS)
  }

  // ---------------------------------------------------------------- bindConsumers

  function ApplyAll(wr: Wiring, commits: seq<Commit>): Wiring {
    if commits == [] then wr else Apply(ApplyAll(wr, commits[..|commits|-1]), commits[|commits|-1])
  }

  /** rebind_owned.go, bindConsumers: every prepare, then every commit, or no commit at all. */
  method BindConsumers(caps: Caps, w: World, panics: set<nat>, wr: Wiring, prev: Owned, cur: Owned)
    returns (ok: bool, after: Wiring)
    ensures ok <==> AllAccept(caps, w, panics, wr, prev, cur)
    ensures after == if ok then Rewired(caps, w, wr, prev, cur) else wr
  {
    var commits: seq<Commit> := [];
    for k := 0 to CONSUMERS
      invariant forall i :: 0 <= i < k ==> Accepts(caps, w, panics, wr, prev, cur, i)
      invariant ApplyAll(wr, commits) == WiredBy(caps, w, wr, prev, cur, k)
    {
      WiredNext(caps, w, wr, prev, cur, k);
      if !Changed(w, prev, cur, k) {
        continue;
      }
      var prepared := Prepare(caps, wr, prev, cur, k);
      if k in panics || prepared.Refused? {
        assert !Accepts(caps, w, panics, wr, prev, cur, k);
        return false, wr;
      }
      if prepared.Will? {
        AppliedNext(wr, commits, prepared.commit);
        commits := commits + [prepared.commit];
      }
    }
    after := RunCommits(wr, commits);
    ok := true;
  }

  lemma WiredNext(caps: Caps, w: World, wr: Wiring, prev: Owned, cur: Owned, k: nat)
    requires k < CONSUMERS
    ensures var prepared, before := Prepare(caps, wr, prev, cur, k), WiredBy(caps, w, wr, prev, cur, k);
      WiredBy(caps, w, wr, prev, cur, k + 1) ==
      if Changed(w, prev, cur, k) && prepared.Will? then Apply(before, prepared.commit) else before
  {
  }

  lemma AppliedNext(wr: Wiring, commits: seq<Commit>, c: Commit)
    ensures ApplyAll(wr, commits + [c]) == Apply(ApplyAll(wr, commits), c)
  {
    assert (commits + [c])[..|commits|] == commits;
  }

  method RunCommits(wr: Wiring, commits: seq<Commit>) returns (after: Wiring)
    ensures after == ApplyAll(wr, commits)
  {
    after := wr;
    for i := 0 to |commits|
      invariant after == ApplyAll(wr, commits[..i])
    {
      assert commits[..i+1][..i] == commits[..i];
      after := Apply(after, commits[i]);
    }
    assert commits[..|commits|] == commits;
  }

  // ---------------------------------------------------------------- what a successful boundary means

  /** The part of the wiring consumer k owns. */
  datatype Part =
    | Holding(instance: Option<Instance>)
    | Cell(content: Option<Option<Instance>>)
    | Channelled(channel: Option<Channel>, given: Option<Instance>)
    | Locked(held: Locker, recorded: Locker)
    | Rotating(rotatorOf: map<Instance, Option<Instance>>)
    | Paged(handlers: set<Instance>)

  function PartOf(wr: Wiring, k: nat): Part {
    match k
    case 0 => Holding(wr.ormDefault)
    case 1 => Cell(wr.cryptoCell)
    case 2 => Holding(wr.sessionCacheCell)
    case 3 => Holding(wr.mailCell)
    case 4 => Channelled(wr.dbChannel, wr.dbChannelDB)
    case 5 => Cell(wr.throttlerStore)
    case 6 => Locked(wr.builtLocker, wr.schedulerLocker)
    case 7 => Holding(wr.batchQueue)
    case 8 => Rotating(wr.rotatorOf)
    case _ => Paged(wr.errorPages)
  }

  /** The consumer a commit belongs to. */
  function OwnerOf(commit: Commit): nat {
    match commit
    case MoveORMDefault(_) => 0
    case StoreCrypto(_) => 1
    case StoreSessionCache(_) => 2
    case StoreMail(_) => 3
    case PointChannel(_) => 4
    case SetThrottlerStore(_) => 5
    case SetLocker(_) => 6
    case SetBatchQueue(_) => 7
    case InstallRotator(_, _) => 8
    case InstallErrorPage(_) => 9
  }

  lemma PreparesOwn(caps: Caps, wr: Wiring, prev: Owned, cur: Owned, k: nat)
    requires k < CONSUMERS && Prepare(caps, wr, prev, cur, k).Will?
    ensures OwnerOf(Prepare(caps, wr, prev, cur, k).commit) == k
  {}

  /** A commit changes its owner's part only, and what it makes of that part depends on nothing else. */
  lemma CommitIsLocal(before: Wiring, wr: Wiring, commit: Commit, k: nat)
    requires k < CONSUMERS
    ensures k != OwnerOf(commit) ==> PartOf(Apply(before, commit), k) == PartOf(before, k)
    ensures k == OwnerOf(commit) && PartOf(before, k) == PartOf(wr, k) ==>
      PartOf(Apply(before, commit), k) == PartOf(Apply(wr, commit), k)
  {}

  /** Consumer k's part after the first n consumers committed: its own commit, when its field changed and it is
      among them, else untouched. The order of the consumers does not matter. */
  lemma {:induction false} EachMovesItsPart(caps: Caps, w: World, wr: Wiring, prev: Owned, cur: Owned, n: nat, k: nat)
    requires n <= CONSUMERS && k < CONSUMERS
    ensures PartOf(WiredBy(caps, w, wr, prev, cur, n), k) ==
      if k < n && Changed(w, prev, cur, k) && Prepare(caps, wr, prev, cur, k).Will?
      then PartOf(Apply(wr, Prepare(caps, wr, prev, cur, k).commit), k) else PartOf(wr, k)
  {
    if n > 0 {
      EachMovesItsPart(caps, w, wr, prev, cur, n - 1, k);
      if Prepare(caps, wr, prev, cur, n - 1).Will? {
        PreparesOwn(caps, wr, prev, cur, n - 1);
        CommitIsLocal(WiredBy(caps, w, wr, prev, cur, n - 1), wr, Prepare(caps, wr, prev, cur, n - 1).commit, k);
      }
    }
  }

  lemma {:induction false} ConsumersKept(caps: Caps, w: World, wr: Wiring, prev: Owned, cur: Owned, n: nat)
    requires n <= CONSUMERS
    ensures WiredBy(caps, w, wr, prev, cur, n).cryptoConsumers == wr.cryptoConsumers
  {
    if n > 0 {
      ConsumersKept(caps, w, wr, prev, cur, n - 1);
    }
  }

  /** Every forwarder cell holds what its field holds (the default store, for a cache), and an encryptor is there
      whenever something needs one. */
  ghost predicate CellsFollow(caps: Caps, wr: Wiring, fields: Owned) {
    && wr.mailCell == As(caps.mailers, fields[FIELD_MAIL])
    && (wr.cryptoCell.Some? ==> wr.cryptoCell.value == As(caps.encryptors, fields[FIELD_CRYPTO]))
    && (wr.cryptoCell.Some? && wr.cryptoConsumers > 0 ==> wr.cryptoCell.value.Some?)
    && (wr.sessionCacheCell.Some? ==> wr.sessionCacheCell == StoreOf(caps, fields[FIELD_CACHE])
                                      && wr.sessionCacheCell.value in caps.sessionStores)
    && (wr.throttlerStore.Some? ==> wr.throttlerStore.value == StoreOf(caps, fields[FIELD_CACHE]))
  }

  /** The store a session cell would follow: the default store of the cache in the field, if it can hold sessions. */
  ghost predicate HoldsSessions(caps: Caps, cache: Option<Instance>) {
    exists store :: cache.Some? && cache.value in caps.caches && caps.caches[cache.value] == Store(Some(store))
                    && store in caps.sessionStores
  }

  /** A boundary is refused exactly for one of three reasons: a prepare panics for a field that changed, the encryptor
      is replaced by something that is none while something needs one, or the cache is replaced by one that cannot hold
      the sessions it is asked to. */
  lemma AcceptedIff(caps: Caps, w: World, panics: set<nat>, wr: Wiring, prev: Owned, cur: Owned)
    ensures AllAccept(caps, w, panics, wr, prev, cur) <==>
      && (forall k | 0 <= k < CONSUMERS && Changed(w, prev, cur, k) :: k !in panics)
      && (wr.cryptoCell.Some? && wr.cryptoConsumers > 0 && FieldChanged(w, prev, cur, FIELD_CRYPTO) ==>
            cur[FIELD_CRYPTO].Some? && cur[FIELD_CRYPTO].value in caps.encryptors)
      && (wr.sessionCacheCell.Some? && FieldChanged(w, prev, cur, FIELD_CACHE) ==>
            HoldsSessions(caps, cur[FIELD_CACHE]))
  {
    assert Changed(w, prev, cur, 1) <==> FieldChanged(w, prev, cur, FIELD_CRYPTO) by {
      assert FIELD_CRYPTO in FieldsOf(1);
    }
    assert Changed(w, prev, cur, 2) <==> FieldChanged(w, prev, cur, FIELD_CACHE) by {
      assert FIELD_CACHE in FieldsOf(2);
    }
    OnlyTwoRefuse(caps, wr, prev, cur);
    if AllAccept(caps, w, panics, wr, prev, cur) {
      assert Accepts(caps, w, panics, wr, prev, cur, 1) && Accepts(caps, w, panics, wr, prev, cur, 2);
      forall k | 0 <= k < CONSUMERS && Changed(w, prev, cur, k)
        ensures k !in panics
      {
        assert Accepts(caps, w, panics, wr, prev, cur, k);
      }
    }
  }

  lemma OnlyTwoRefuse(caps: Caps, wr: Wiring, prev: Owned, cur: Owned)
    ensures forall k | 0 <= k < CONSUMERS && Prepare(caps, wr, prev, cur, k).Refused? :: k == 1 || k == 2
    ensures Prepare(caps, wr, prev, cur, 1).Refused? <==>
      && wr.cryptoCell.Some? && wr.cryptoConsumers > 0
      && !(cur[FIELD_CRYPTO].Some? && cur[FIELD_CRYPTO].value in caps.encryptors)
    ensures Prepare(caps, wr, prev, cur, 2).Refused? <==>
      wr.sessionCacheCell.Some? && !HoldsSessions(caps, cur[FIELD_CACHE])
  {
  }

  /** A boundary every consumer accepts leaves every cell following its field, and the cells bound before it bound. */
  lemma CellsFollowAfter(caps: Caps, w: World, panics: set<nat>, wr: Wiring, prev: Owned, cur: Owned)
    requires CellsFollow(caps, wr, prev) && AllAccept(caps, w, panics, wr, prev, cur)
    ensures CellsFollow(caps, Rewired(caps, w, wr, prev, cur), cur)
    ensures SameCellsBound(wr, Rewired(caps, w, wr, prev, cur))
  {
    BoundStayBound(caps, w, wr, prev, cur);
    EncryptorFollows(caps, w, panics, wr, prev, cur);
    SessionCacheFollows(caps, w, panics, wr, prev, cur);
    MailAndThrottlerFollow(caps, w, wr, prev, cur);
  }

  ghost predicate SameCellsBound(wr: Wiring, after: Wiring) {
    && (after.cryptoCell.Some? <==> wr.cryptoCell.Some?)
    && (after.sessionCacheCell.Some? <==> wr.sessionCacheCell.Some?)
    && (after.throttlerStore.Some? <==> wr.throttlerStore.Some?)
    && (after.dbChannel.Some? <==> wr.dbChannel.Some?)
  }

  lemma BoundStayBound(caps: Caps, w: World, wr: Wiring, prev: Owned, cur: Owned)
    ensures SameCellsBound(wr, Rewired(caps, w, wr, prev, cur))
  {
    EachMovesItsPart(caps, w, wr, prev, cur, CONSUMERS, 1);
    EachMovesItsPart(caps, w, wr, prev, cur, CONSUMERS, 2);
    EachMovesItsPart(caps, w, wr, prev, cur, CONSUMERS, 4);
    EachMovesItsPart(caps, w, wr, prev, cur, CONSUMERS, 5);
  }

  lemma EncryptorFollows(caps: Caps, w: World, panics: set<nat>, wr: Wiring, prev: Owned, cur: Owned)
    requires CellsFollow(caps, wr, prev) && AllAccept(caps, w, panics, wr, prev, cur)
    ensures var after := Rewired(caps, w, wr, prev, cur);
      && (after.cryptoCell.Some? ==> after.cryptoCell.value == As(caps.encryptors, cur[FIELD_CRYPTO]))
      && (after.cryptoCell.Some? && after.cryptoConsumers > 0 ==> after.cryptoCell.value.Some?)
  {
    EachMovesItsPart(caps, w, wr, prev, cur, CONSUMERS, 1);
    ConsumersKept(caps, w, wr, prev, cur, CONSUMERS);
    assert Accepts(caps, w, panics, wr, prev, cur, 1) && FIELD_CRYPTO in FieldsOf(1);
  }

  lemma SessionCacheFollows(caps: Caps, w: World, panics: set<nat>, wr: Wiring, prev: Owned, cur: Owned)
    requires CellsFollow(caps, wr, prev) && AllAccept(caps, w, panics, wr, prev, cur)
    ensures var cell := Rewired(caps, w, wr, prev, cur).sessionCacheCell;
      cell.Some? ==> cell == StoreOf(caps, cur[FIELD_CACHE]) && cell.value in caps.sessionStores
  {
    EachMovesItsPart(caps, w, wr, prev, cur, CONSUMERS, 2);
    assert Accepts(caps, w, panics, wr, prev, cur, 2) && FIELD_CACHE in FieldsOf(2);
  }

  lemma MailAndThrottlerFollow(caps: Caps, w: World, wr: Wiring, prev: Owned, cur: Owned)
    requires CellsFollow(caps, wr, prev)
    ensures var after := Rewired(caps, w, wr, prev, cur);
      && after.mailCell == As(caps.mailers, cur[FIELD_MAIL])
      && (after.throttlerStore.Some? ==> after.throttlerStore.value == StoreOf(caps, cur[FIELD_CACHE]))
  {
    EachMovesItsPart(caps, w, wr, prev, cur, CONSUMERS, 3);
    EachMovesItsPart(caps, w, wr, prev, cur, CONSUMERS, 5);
    assert FIELD_MAIL in FieldsOf(3) && FIELD_CACHE in FieldsOf(5);
  }

  /** A database channel a module set itself is left alone; the framework's follows the database and, when that names
      one, its driver. */
  lemma ChannelKeptOrFollows(caps: Caps, w: World, wr: Wiring, prev: Owned, cur: Owned)
    requires wr.dbChannel.Some?
    ensures var after, was := Rewired(caps, w, wr, prev, cur), wr.dbChannel.value;
      && (was.held != wr.dbChannelDB || !FieldChanged(w, prev, cur, FIELD_DB) ==>
            after.dbChannel == wr.dbChannel && after.dbChannelDB == wr.dbChannelDB)
      && (was.held == wr.dbChannelDB && FieldChanged(w, prev, cur, FIELD_DB) ==>
            && after.dbChannel.Some? && after.dbChannel.value.held == after.dbChannelDB
            && ChannelOver(caps, cur[FIELD_DB], after.dbChannel.value, was.driver))
  {
    EachMovesItsPart(caps, w, wr, prev, cur, CONSUMERS, 4);
    assert FIELD_DB in FieldsOf(4);
  }

  /** The channel holds the database d is, none if d is no database, and its driver unless that is unnamed. */
  ghost predicate ChannelOver(caps: Caps, d: Option<Instance>, channel: Channel, was: string) {
    && (forall x :: d == Some(x) && x in caps.databases ==>
          && channel.held == caps.databases[x].sql
          && (caps.databases[x].driver != "" ==> channel.driver == caps.databases[x].driver)
          && (caps.databases[x].driver == "" ==> channel.driver == was))
    && (d.None? || d.value !in caps.databases ==> channel == Channel(None, was))
  }

  /** An ORM default something else installed is left alone; the framework's follows the database, and a process
      without one takes the first manager the field holds. */
  lemma ORMDefaultKeptOrFollows(caps: Caps, w: World, wr: Wiring, prev: Owned, cur: Owned)
    ensures var after, was := Rewired(caps, w, wr, prev, cur), As(caps.ormManagers, prev[FIELD_DB]);
      && (wr.ormDefault != was || !FieldChanged(w, prev, cur, FIELD_DB) ==> after.ormDefault == wr.ormDefault)
      && (wr.ormDefault == was && FieldChanged(w, prev, cur, FIELD_DB) ==>
            after.ormDefault == As(caps.ormManagers, cur[FIELD_DB]))
  {
    EachMovesItsPart(caps, w, wr, prev, cur, CONSUMERS, 0);
    assert FIELD_DB in FieldsOf(0);
  }

  /** The framework's locker follows the cache once cache or scheduler changed, while its own scheduler is in the field
      and no module gave that another locker; otherwise the lockers stay. */
  lemma LockerKeptOrFollows(caps: Caps, w: World, wr: Wiring, prev: Owned, cur: Owned)
    ensures var after, sched := Rewired(caps, w, wr, prev, cur), cur[FIELD_SCHEDULER];
      if && sched.Some? && sched == wr.builtScheduler && sched.value in caps.schedulers
         && wr.builtLocker == wr.schedulerLocker
         && (FieldChanged(w, prev, cur, FIELD_CACHE) || FieldChanged(w, prev, cur, FIELD_SCHEDULER)) then
        && after.builtLocker == after.schedulerLocker
        && (forall c :: after.schedulerLocker == SharedOver(c) <==>
                          cur[FIELD_CACHE] == Some(c) && c in caps.caches && c in caps.sharedLocks)
        && (after.schedulerLocker == InProcess || after.schedulerLocker.SharedOver?)
      else after.builtLocker == wr.builtLocker && after.schedulerLocker == wr.schedulerLocker
  {
    EachMovesItsPart(caps, w, wr, prev, cur, CONSUMERS, 6);
    assert FIELD_CACHE in FieldsOf(6) && FIELD_SCHEDULER in FieldsOf(6);
  }

  /** The batch callbacks run on the queue the field holds now, and on none when it holds no queue driver. */
  lemma BatchQueueFollows(caps: Caps, w: World, wr: Wiring, prev: Owned, cur: Owned)
    ensures Rewired(caps, w, wr, prev, cur).batchQueue ==
      if FieldChanged(w, prev, cur, FIELD_QUEUE) then As(caps.queueDrivers, cur[FIELD_QUEUE]) else wr.batchQueue
  {
    EachMovesItsPart(caps, w, wr, prev, cur, CONSUMERS, 7);
    assert FIELD_QUEUE in FieldsOf(7);
  }

  /** The auth manager the field holds rotates the tokens of the CSRF instance the field holds, once either changed;
      other managers keep their rotators. */
  lemma RotatorFollows(caps: Caps, w: World, wr: Wiring, prev: Owned, cur: Owned)
    ensures var moved := FieldChanged(w, prev, cur, FIELD_CSRF) || FieldChanged(w, prev, cur, FIELD_AUTH);
      Rewired(caps, w, wr, prev, cur).rotatorOf ==
      if moved && cur[FIELD_AUTH].Some? && cur[FIELD_AUTH].value in caps.rotated
      then wr.rotatorOf[cur[FIELD_AUTH].value := As(caps.rotators, cur[FIELD_CSRF])] else wr.rotatorOf
  {
    EachMovesItsPart(caps, w, wr, prev, cur, CONSUMERS, 8);
    assert FIELD_CSRF in FieldsOf(8) && FIELD_AUTH in FieldsOf(8);
  }

  /** A new error handler gets the page renderer, and none loses it. */
  lemma ErrorPagesFollow(caps: Caps, w: World, wr: Wiring, prev: Owned, cur: Owned)
    ensures Rewired(caps, w, wr, prev, cur).errorPages ==
      if FieldChanged(w, prev, cur, FIELD_ERRORS) && cur[FIELD_ERRORS].Some?
      then wr.errorPages + {cur[FIELD_ERRORS].value} else wr.errorPages
  {
    EachMovesItsPart(caps, w, wr, prev, cur, CONSUMERS, 9);
    assert FIELD_ERRORS in FieldsOf(9);
  }
}
