/** The wiring pass of every lifecycle boundary, and the unwind of a boot that failed before the next one
    (rebind_owned.go, rebind; rebind_retire.go). */
module Rebind {
  import opened Options
  import opened UnwrapChain
  import opened Retire
  import opened Bindings

  /** What modules and callbacks may have set themselves since the previous boundary. */
  datatype Outside = Outside(
    ormDefault: Option<Instance>,
    channel: Channel,
    builtLocker: Locker,
    batchQueue: Option<Instance>,
    rotatorOf: map<Instance, Option<Instance>>)

  /** What one boundary, or one unwind, finds. panics are the consumers whose prepare panics. */
  datatype Boundary = Boundary(
    fields: Owned,
    registered: seq<Option<Instance>>,
    unwrap: map<Instance, Unwrapped>,
    outside: Outside,
    panics: set<nat>)

  datatype AppState = AppState(
    bound: Option<Owned>,
    ids: seq<Instance>,        // every instance retired or parked
    closed: seq<Instance>,     // the ones whose close was started
    borrowed: seq<Instance>,   // displaced databases, closed after the queue
    wiring: Wiring)

  function WorldAt(caps: Caps, b: Boundary): World {
    World(b.unwrap, caps.incomparable)
  }

  /** The wiring as the boundary finds it. */
  function AsFound(wr: Wiring, o: Outside): Wiring {
    wr.(ormDefault := o.ormDefault, builtLocker := o.builtLocker, batchQueue := o.batchQueue, rotatorOf := o.rotatorOf,
        dbChannel := if wr.dbChannel.Some? then Some(o.channel) else None)
  }

  predicate AllComparable(caps: Caps, fields: Owned) {
    forall i :: 0 <= i < OWNED_FIELDS && fields[i].Some? ==> fields[i].value !in caps.incomparable
  }

  predicate HoldsRetired(fields: Owned, ids: seq<Instance>) {
    exists i :: 0 <= i < OWNED_FIELDS && fields[i].Some? && fields[i].value in ids
  }

  /** The first field of set that holds v; a displaced database is parked. */
  function FieldOf(fields: Owned, v: Instance, from: nat): nat
    requires from <= OWNED_FIELDS
    decreases OWNED_FIELDS - from
  {
    if from == OWNED_FIELDS then OWNED_FIELDS
    else if fields[from] == Some(v) then from
    else FieldOf(fields, v, from + 1)
  }

  predicate Parked(prev: Owned, v: Instance) {
    FieldOf(prev, v, 0) == FIELD_DB
  }

  function RetireAll(s: AppState, prev: Owned, displaced: seq<Instance>): AppState {
    if displaced == [] then s
    else
      var d := displaced[|displaced|-1];
      var s' := RetireAll(s, prev, displaced[..|displaced|-1]);
      if Parked(prev, d) then s'.(ids := s'.ids + [d], borrowed := s'.borrowed + [d])
      else s'.(ids := s'.ids + [d], closed := s'.closed + [d])
  }

  /** The boundary passes every check and every consumer accepts it. */
  predicate Succeeds(caps: Caps, s: AppState, b: Boundary) {
    && AllComparable(caps, b.fields)
    && !HoldsRetired(b.fields, s.ids)
    && AllAccept(caps, WorldAt(caps, b), b.panics, AsFound(s.wiring, b.outside), PrevOf(s, b), b.fields)
  }

  /** What the boundary compares with: the first one compares the fields with themselves. */
  function PrevOf(s: AppState, b: Boundary): Owned {
    if s.bound.Some? then s.bound.value else b.fields
  }

  /** The app once every consumer has committed, before anything is retired. */
  function Bound(caps: Caps, s: AppState, b: Boundary): AppState {
    s.(bound := Some(b.fields),
       wiring := Rewired(caps, WorldAt(caps, b), AsFound(s.wiring, b.outside), PrevOf(s, b), b.fields))
  }

  ghost function AfterBoundary(caps: Caps, s: AppState, b: Boundary): AppState {
    if !Succeeds(caps, s, b) then s.(wiring := AsFound(s.wiring, b.outside))
    else
      var prev := PrevOf(s, b);
      RetireAll(Bound(caps, s, b), prev, DisplacedList(WorldAt(caps, b), b.registered, prev, b.fields))
  }

  /** What an unwind takes as the fields. */
  function UnwoundTo(caps: Caps, s: AppState, b: Boundary): Owned
    requires s.bound.Some?
  {
    if AllComparable(caps, b.fields) then b.fields else s.bound.value
  }

  ghost function AfterUnwind(caps: Caps, s: AppState, b: Boundary): AppState {
    if s.bound.None? then s
    else
      var prev, cur := s.bound.value, UnwoundTo(caps, s, b);
      RetireAll(s, prev, DisplacedList(WorldAt(caps, b), b.registered, prev, cur)).(bound := Some(cur))
  }

  // ---------------------------------------------------------------- the code

  class App {
    var bound: Owned
    var boundSet: bool
    var ids: seq<Instance>
    var closed: seq<Instance>
    var borrowed: seq<Instance>
    var wiring: Wiring

    ghost function View(): AppState
      reads this
    {
      AppState(if boundSet then Some(bound) else None, ids, closed, borrowed, wiring)
    }

    constructor (wiring: Wiring)
      ensures View() == AppState(None, [], [], [], wiring)
    {
      this.wiring := wiring;
      bound := seq(OWNED_FIELDS, _ => None);
      boundSet, ids, closed, borrowed := false, [], [], [];
    }

    /** rebind_retire.go, retireDisplaced. Starting a close is one step. */
    method RetireDisplaced(w: World, registered: seq<Option<Instance>>, prev: Owned, cur: Owned)
      modifies this`ids, this`closed, this`borrowed
      ensures View() == RetireAll(old(View()), prev, DisplacedList(w, registered, prev, cur))
      ensures old(closed) <= closed && old(borrowed) <= borrowed
      ensures ids == old(ids) + DisplacedList(w, registered, prev, cur)
      ensures forall x :: x in borrowed[|old(borrowed)|..] <==>
        x in DisplacedList(w, registered, prev, cur) && WasTheDatabase(prev, x)
      ensures forall x :: x in closed[|old(closed)|..] <==>
        x in DisplacedList(w, registered, prev, cur) && !WasTheDatabase(prev, x)
    {
      var displaced, _ := DisplacedSince(w, registered, prev, cur);
      RetireAllMeans(View(), prev, displaced);
      RetireEach(prev, displaced);
    }

    /** Its loop. */
    method RetireEach(prev: Owned, displaced: seq<Instance>)
      modifies this`ids, this`closed, this`borrowed
      ensures View() == RetireAll(old(View()), prev, displaced)
    {
      for i := 0 to |displaced|
        invariant View() == RetireAll(old(View()), prev, displaced[..i])
      {
        var d := displaced[i];
        assert displaced[..i+1][..i] == displaced[..i];
        ids := ids + [d];
        if Parked(prev, d) {
          borrowed := borrowed + [d];
        } else {
          closed := closed + [d];
        }
      }
      assert displaced[..|displaced|] == displaced;
    }

    /** rebind_owned.go, rebind. The modules' own changes since the last boundary are already in wiring. */
    method RunBoundary(caps: Caps, b: Boundary) returns (ok: bool)
      requires wiring == AsFound(wiring, b.outside)
      modifies this
      ensures ok <==> Succeeds(caps, old(View()), b)
      ensures View() == AfterBoundary(caps, old(View()), b)
      ensures !ok ==> View() == old(View())
    {
      var cur := b.fields;
      if !AllComparable(caps, cur) {
        return false;
      }
      if HoldsRetired(cur, ids) {
        return false;
      }
      var prev := if boundSet then bound else cur;
      var w := World(b.unwrap, caps.incomparable);
      var bindOk, rewired := BindConsumers(caps, w, b.panics, wiring, prev, cur);
      if !bindOk {
        return false;
      }
      wiring := rewired;
      bound, boundSet := cur, true;
      RetireDisplaced(w, b.registered, prev, cur);
      return true;
    }

    /** rebind_retire.go, unwindRetire. */
    method UnwindRetire(caps: Caps, b: Boundary)
      modifies this
      ensures View() == AfterUnwind(caps, old(View()), b)
    {
      if !boundSet {
        return;
      }
      var cur := if AllComparable(caps, b.fields) then b.fields else bound;
      RetireDisplaced(World(b.unwrap, caps.incomparable), b.registered, bound, cur);
      bound := cur;
    }
  }

  // ---------------------------------------------------------------- retirement over runs

  /** Retiring records each instance once and touches neither the snapshot nor the wiring. */
  lemma {:induction false} RetireAllRecords(s: AppState, prev: Owned, displaced: seq<Instance>)
    ensures var s' := RetireAll(s, prev, displaced);
      s'.ids == s.ids + displaced && s'.bound == s.bound && s'.wiring == s.wiring
  {
    if displaced != [] {
      var n := |displaced| - 1;
      RetireAllRecords(s, prev, displaced[..n]);
      assert displaced == displaced[..n] + [displaced[n]];
      assert s.ids + displaced == (s.ids + displaced[..n]) + [displaced[n]];
    }
  }

  /** The instances of displaced that are parked, or that are not, in order. */
  function Sorted(prev: Owned, displaced: seq<Instance>, parked: bool): (some: seq<Instance>)
    ensures forall x :: x in some <==> x in displaced && Parked(prev, x) == parked
  {
    if displaced == [] then []
    else
      var n := |displaced| - 1;
      var before := Sorted(prev, displaced[..n], parked);
      assert displaced == displaced[..n] + [displaced[n]];
      if Parked(prev, displaced[n]) == parked then before + [displaced[n]] else before
  }

  lemma {:induction false} RetireAllSorts(s: AppState, prev: Owned, displaced: seq<Instance>)
    ensures RetireAll(s, prev, displaced).closed == s.closed + Sorted(prev, displaced, false)
    ensures RetireAll(s, prev, displaced).borrowed == s.borrowed + Sorted(prev, displaced, true)
  {
    if displaced != [] {
      RetireAllSorts(s, prev, displaced[..|displaced| - 1]);
    }
  }

  lemma {:induction false} SortedAll(prev: Owned, displaced: seq<Instance>)
    ensures multiset(Sorted(prev, displaced, false)) + multiset(Sorted(prev, displaced, true)) == multiset(displaced)
  {
    if displaced != [] {
      var n := |displaced| - 1;
      SortedAll(prev, displaced[..n]);
      assert displaced == displaced[..n] + [displaced[n]];
    }
  }

  /** x was the database of prev, and in no field before it. */
  predicate WasTheDatabase(prev: Owned, x: Instance) {
    prev[FIELD_DB] == Some(x) && forall i :: 0 <= i < FIELD_DB ==> prev[i] != Some(x)
  }

  lemma {:induction false} FieldOfIsFirst(fields: Owned, v: Instance, from: nat)
    requires from <= OWNED_FIELDS
    ensures var f := FieldOf(fields, v, from);
      && from <= f <= OWNED_FIELDS && (forall i :: from <= i < f ==> fields[i] != Some(v))
      && (f < OWNED_FIELDS ==> fields[f] == Some(v))
    decreases OWNED_FIELDS - from
  {
    if from < OWNED_FIELDS && fields[from] != Some(v) {
      FieldOfIsFirst(fields, v, from + 1);
    }
  }

  lemma ParkedIsDatabase(prev: Owned, x: Instance)
    ensures Parked(prev, x) <==> WasTheDatabase(prev, x)
  {
    FieldOfIsFirst(prev, x, 0);
  }

  /** Each retired instance is recorded, and closed or parked, exactly once; exactly the databases are parked. */
  lemma RetireAllMeans(s: AppState, prev: Owned, displaced: seq<Instance>)
    ensures var s' := RetireAll(s, prev, displaced);
      && s'.ids == s.ids + displaced && s'.bound == s.bound && s'.wiring == s.wiring
      && multiset(s'.closed) + multiset(s'.borrowed) == multiset(s.closed) + multiset(s.borrowed) + multiset(displaced)
      && s.borrowed <= s'.borrowed && s.closed <= s'.closed
      && (forall x :: x in s'.borrowed[|s.borrowed|..] <==> x in displaced && WasTheDatabase(prev, x))
      && (forall x :: x in s'.closed[|s.closed|..] <==> x in displaced && !WasTheDatabase(prev, x))
  {
    forall x
      ensures Parked(prev, x) <==> WasTheDatabase(prev, x)
    {
      ParkedIsDatabase(prev, x);
    }
    RetireAllRecords(s, prev, displaced);
    RetireAllSorts(s, prev, displaced);
    SortedAll(prev, displaced);
    var s' := RetireAll(s, prev, displaced);
    assert s'.closed[|s.closed|..] == Sorted(prev, displaced, false);
    assert s'.borrowed[|s.borrowed|..] == Sorted(prev, displaced, true);
  }

  /** What every boundary keeps: an instance is retired once, each is closed or parked, and no field bound at the
      last boundary holds a retired one. */
  ghost predicate RetirementInv(caps: Caps, s: AppState) {
    && NoDuplicates(s.ids)
    && multiset(s.ids) == multiset(s.closed) + multiset(s.borrowed)
    && (s.bound.Some? ==> AllComparable(caps, s.bound.value) && !HoldsRetired(s.bound.value, s.ids))
  }

  lemma DisplacedWereBound(caps: Caps, b: Boundary, prev: Owned, cur: Owned)
    ensures NoDuplicates(DisplacedList(WorldAt(caps, b), b.registered, prev, cur))
    ensures forall x :: x in DisplacedList(WorldAt(caps, b), b.registered, prev, cur) ==>
      Some(x) in prev && Displaced(WorldAt(caps, b), b.registered, prev, cur, x)
  {
    DisplacedAre(WorldAt(caps, b), b.registered, prev, cur, OWNED_FIELDS);
  }

  /** Nothing displaced is left in a field: every field at cur holds itself. */
  lemma DisplacedLeftTheFields(caps: Caps, b: Boundary, prev: Owned, cur: Owned, x: Instance)
    requires AllComparable(caps, prev) && Some(x) in cur
    ensures x !in DisplacedList(WorldAt(caps, b), b.registered, prev, cur)
  {
    DisplacedWereBound(caps, b, prev, cur);
    assert Some(x) in Holders(cur, b.registered);
    assert Some(x) in prev ==> !HoldBy(WorldAt(caps, b), Some(x), x).NotHeld?;
  }

  lemma ConcatNoDuplicates(a: seq<Instance>, b: seq<Instance>)
    requires NoDuplicates(a) && NoDuplicates(b) && forall x :: x in b ==> x !in a
    ensures NoDuplicates(a + b)
  {
    forall i, j | 0 <= i < j < |a + b| ensures (a + b)[i] != (a + b)[j] {
      if i < |a| <= j { assert b[j - |a|] in b && a[i] in a; }
    }
  }

  /** One boundary, failed or not, keeps it, and retires only instances nothing holds. */
  lemma BoundaryKeeps(caps: Caps, s: AppState, b: Boundary)
    requires RetirementInv(caps, s)
    ensures RetirementInv(caps, AfterBoundary(caps, s, b))
    ensures s.ids <= AfterBoundary(caps, s, b).ids
  {
    if Succeeds(caps, s, b) {
      var prev := PrevOf(s, b);
      var displaced := DisplacedList(WorldAt(caps, b), b.registered, prev, b.fields);
      RetireAllMeans(Bound(caps, s, b), prev, displaced);
      DisplacedWereBound(caps, b, prev, b.fields);
      forall x | x in displaced ensures x !in s.ids {
        var i :| 0 <= i < OWNED_FIELDS && prev[i] == Some(x);
      }
      ConcatNoDuplicates(s.ids, displaced);
      assert multiset(s.ids + displaced) == multiset(s.ids) + multiset(displaced);
      forall x | Some(x) in b.fields ensures x !in displaced {
        DisplacedLeftTheFields(caps, b, prev, b.fields, x);
      }
    }
  }

  /** A successful boundary retires exactly the instances it displaced and nothing holds. */
  lemma RetiresExactlyDisplaced(caps: Caps, s: AppState, b: Boundary, x: Instance)
    requires Succeeds(caps, s, b)
    ensures x in AfterBoundary(caps, s, b).ids <==>
      x in s.ids || Displaced(WorldAt(caps, b), b.registered, PrevOf(s, b), b.fields, x)
  {
    var prev := PrevOf(s, b);
    RetireAllRecords(Bound(caps, s, b), prev, DisplacedList(WorldAt(caps, b), b.registered, prev, b.fields));
    DisplacedMember(WorldAt(caps, b), b.registered, prev, b.fields, OWNED_FIELDS, x);
  }

  /** An unwind retires exactly the instances displaced since the last boundary that nothing holds. */
  lemma UnwindRetiresExactlyDisplaced(caps: Caps, s: AppState, b: Boundary, x: Instance)
    requires s.bound.Some?
    ensures x in AfterUnwind(caps, s, b).ids <==>
      x in s.ids || Displaced(WorldAt(caps, b), b.registered, s.bound.value, UnwoundTo(caps, s, b), x)
  {
    var prev, cur := s.bound.value, UnwoundTo(caps, s, b);
    RetireAllRecords(s, prev, DisplacedList(WorldAt(caps, b), b.registered, prev, cur));
    DisplacedMember(WorldAt(caps, b), b.registered, prev, cur, OWNED_FIELDS, x);
  }

  /** What happens to a retired instance: a boundary or an unwind parks exactly the displaced databases, for the
      teardown to close after the queue, and starts closing exactly the other displaced instances. */
  lemma ParksExactlyDatabases(caps: Caps, s: AppState, b: Boundary, x: Instance)
    requires s.bound.Some?
    ensures var s', prev := AfterBoundary(caps, s, b), s.bound.value;
      var displaced := Succeeds(caps, s, b) && Displaced(WorldAt(caps, b), b.registered, prev, b.fields, x);
      && s.borrowed <= s'.borrowed && s.closed <= s'.closed
      && (x in s'.borrowed[|s.borrowed|..] <==> displaced && WasTheDatabase(prev, x))
      && (x in s'.closed[|s.closed|..] <==> displaced && !WasTheDatabase(prev, x))
    ensures var s', prev := AfterUnwind(caps, s, b), s.bound.value;
      var displaced := Displaced(WorldAt(caps, b), b.registered, prev, UnwoundTo(caps, s, b), x);
      && s.borrowed <= s'.borrowed && s.closed <= s'.closed
      && (x in s'.borrowed[|s.borrowed|..] <==> displaced && WasTheDatabase(prev, x))
      && (x in s'.closed[|s.closed|..] <==> displaced && !WasTheDatabase(prev, x))
  {
    var w, prev, cur := WorldAt(caps, b), s.bound.value, UnwoundTo(caps, s, b);
    DisplacedMember(w, b.registered, prev, b.fields, OWNED_FIELDS, x);
    RetireAllMeans(Bound(caps, s, b), prev, DisplacedList(w, b.registered, prev, b.fields));
    DisplacedMember(w, b.registered, prev, cur, OWNED_FIELDS, x);
    RetireAllMeans(s, prev, DisplacedList(w, b.registered, prev, cur));
  }

  /** When an instance is retired, by a boundary or by an unwind, no owned field, component or hook is it or leads to
      it by unwrapping: each of their chains was followed to its end. */
  lemma RetiredWhenFree(caps: Caps, s: AppState, b: Boundary, x: Instance, h: Instance)
    requires RetirementInv(caps, s) && x !in s.ids
    requires x in AfterBoundary(caps, s, b).ids || x in AfterUnwind(caps, s, b).ids
    requires Some(h) in b.fields || Some(h) in b.registered
    ensures h != x && EndsWithout(WorldAt(caps, b), Some(h), Some(x))
    ensures !ReachedWithin(WorldAt(caps, b), Some(h), Some(x), MAX_UNWRAP_DEPTH)
  {
    if x in AfterBoundary(caps, s, b).ids {
      RetiresExactlyDisplaced(caps, s, b, x);
      DisplacedIsFree(WorldAt(caps, b), b.registered, PrevOf(s, b), b.fields, x, h);
    } else {
      UnwindRetiresExactlyDisplaced(caps, s, b, x);
      UnwoundToFields(caps, s, b, x);
      DisplacedIsFree(WorldAt(caps, b), b.registered, s.bound.value, b.fields, x, h);
    }
  }

  /** An unwind that displaces anything compared with the fields it found, not with the snapshot itself. */
  lemma UnwoundToFields(caps: Caps, s: AppState, b: Boundary, x: Instance)
    requires s.bound.Some? && AllComparable(caps, s.bound.value)
    requires Displaced(WorldAt(caps, b), b.registered, s.bound.value, UnwoundTo(caps, s, b), x)
    ensures UnwoundTo(caps, s, b) == b.fields
  {
  }

  lemma RetireOnceMore(s: AppState, prev: Owned, displaced: seq<Instance>)
    requires NoDuplicates(s.ids) && multiset(s.ids) == multiset(s.closed) + multiset(s.borrowed)
    requires NoDuplicates(displaced) && forall x :: x in displaced ==> x !in s.ids
    ensures var s' := RetireAll(s, prev, displaced);
      NoDuplicates(s'.ids) && multiset(s'.ids) == multiset(s'.closed) + multiset(s'.borrowed)
  {
    RetireAllMeans(s, prev, displaced);
    ConcatNoDuplicates(s.ids, displaced);
    assert multiset(s.ids + displaced) == multiset(s.ids) + multiset(displaced);
  }

  /** The last step of a failed boot: it may find a retired instance in a field, so it does not keep the whole
      invariant, but it retires nothing twice. */
  lemma UnwindRetiresOnce(caps: Caps, s: AppState, b: Boundary)
    requires RetirementInv(caps, s)
    ensures NoDuplicates(AfterUnwind(caps, s, b).ids)
    ensures multiset(AfterUnwind(caps, s, b).ids) ==
      multiset(AfterUnwind(caps, s, b).closed) + multiset(AfterUnwind(caps, s, b).borrowed)
    ensures !HoldsRetired(b.fields, s.ids) ==> RetirementInv(caps, AfterUnwind(caps, s, b))
  {
    if s.bound.Some? {
      var prev := s.bound.value;
      var cur := if AllComparable(caps, b.fields) then b.fields else prev;
      var displaced := DisplacedList(WorldAt(caps, b), b.registered, prev, cur);
      RetireAllRecords(s, prev, displaced);
      DisplacedWereBound(caps, b, prev, cur);
      forall x | x in displaced ensures x !in s.ids {
        var i :| 0 <= i < OWNED_FIELDS && prev[i] == Some(x);
      }
      RetireOnceMore(s, prev, displaced);
      forall x | Some(x) in cur ensures x !in displaced {
        DisplacedLeftTheFields(caps, b, prev, cur, x);
      }
    }
  }

  ghost function AfterBoundaries(caps: Caps, s: AppState, run: seq<Boundary>): AppState
    decreases |run|
  {
    if run == [] then s else AfterBoundaries(caps, AfterBoundary(caps, s, run[0]), run[1..])
  }

  lemma {:induction false} BoundariesKeep(caps: Caps, s: AppState, run: seq<Boundary>)
    requires RetirementInv(caps, s)
    ensures RetirementInv(caps, AfterBoundaries(caps, s, run))
    decreases |run|
  {
    if run != [] {
      BoundaryKeeps(caps, s, run[0]);
      BoundariesKeep(caps, AfterBoundary(caps, s, run[0]), run[1..]);
    }
  }

  /** Over every run of boundaries, ended by an unwind or not: each instance is retired at most once, each retired
      one is closed or parked, and after the boundaries no bound field holds one. */
  lemma RetiredOnce(caps: Caps, wiring: Wiring, run: seq<Boundary>, last: Boundary)
    ensures var s := AfterBoundaries(caps, AppState(None, [], [], [], wiring), run);
      && RetirementInv(caps, s)
      && NoDuplicates(AfterUnwind(caps, s, last).ids)
  {
    var s0 := AppState(None, [], [], [], wiring);
    BoundariesKeep(caps, s0, run);
    UnwindRetiresOnce(caps, AfterBoundaries(caps, s0, run), last);
  }

  /** An instance a field holds again, or one no boundary ever bound, is not retired by the next boundary or unwind,
      whatever was replaced elsewhere: of a field that went from A to B and back to A, neither A nor B is. */
  lemma PutBackRetiresNothing(caps: Caps, s: AppState, b: Boundary, x: Instance)
    requires RetirementInv(caps, s) && s.bound.Some?
    requires Some(x) in b.fields || Some(x) !in s.bound.value
    ensures x in AfterBoundary(caps, s, b).ids <==> x in s.ids
    ensures x in AfterUnwind(caps, s, b).ids <==> x in s.ids
  {
    var prev := s.bound.value;
    DisplacedWereBound(caps, b, prev, b.fields);
    DisplacedMember(WorldAt(caps, b), b.registered, prev, b.fields, OWNED_FIELDS, x);
    if Some(x) in b.fields {
      DisplacedLeftTheFields(caps, b, prev, b.fields, x);
    }
    if Succeeds(caps, s, b) {
      RetiresExactlyDisplaced(caps, s, b, x);
    }
    UnwindRetiresExactlyDisplaced(caps, s, b, x);
    if Displaced(WorldAt(caps, b), b.registered, prev, UnwoundTo(caps, s, b), x) {
      UnwoundToFields(caps, s, b, x);
    }
  }

  /** Over every run of boundaries, failed ones included, each forwarder cell holds what its field held at the last
      boundary that succeeded, and the encryptor is never missing while something needs one. */
  lemma {:induction false} CellsFollowOverRuns(caps: Caps, s: AppState, run: seq<Boundary>)
    requires s.bound.Some? && CellsFollow(caps, s.wiring, s.bound.value)
    ensures var s' := AfterBoundaries(caps, s, run);
      s'.bound.Some? && CellsFollow(caps, s'.wiring, s'.bound.value)
    decreases |run|
  {
    if run != [] {
      var b := run[0];
      var s1 := AfterBoundary(caps, s, b);
      if Succeeds(caps, s, b) {
        var w, prev, found := WorldAt(caps, b), PrevOf(s, b), AsFound(s.wiring, b.outside);
        CellsFollowAfter(caps, w, b.panics, found, prev, b.fields);
        RetireAllRecords(Bound(caps, s, b), prev, DisplacedList(w, b.registered, prev, b.fields));
      }
      CellsFollowOverRuns(caps, s1, run[1..]);
    }
  }

  // ---------------------------------------------------------------- two unwinds in a row

  lemma ConcatNoDuplicatesIff(a: seq<Instance>, b: seq<Instance>)
    requires NoDuplicates(a) && NoDuplicates(b)
    ensures NoDuplicates(a + b) <==> forall x | x in b :: x !in a
  {
    if x :| x in b && x in a {
      var i :| 0 <= i < |a| && a[i] == x;
      var j :| 0 <= j < |b| && b[j] == x;
      assert (a + b)[i] == (a + b)[|a| + j];
    } else {
      ConcatNoDuplicates(a, b);
    }
  }

  /** bootstrap unwinds twice when the chain modules fail (bootstrap.go). The second unwind retires an instance for
      the second time exactly when the first one found it back in a field and the second one displaces it. */
  lemma SecondUnwind(caps: Caps, s: AppState, b1: Boundary, b2: Boundary)
    requires RetirementInv(caps, s) && s.bound.Some?
    ensures var s1 := AfterUnwind(caps, s, b1);
      var cur1 := UnwoundTo(caps, s, b1);
      NoDuplicates(AfterUnwind(caps, s1, b2).ids) <==>
      forall x | x in s.ids && Some(x) in cur1 ::
        !Displaced(WorldAt(caps, b2), b2.registered, cur1, UnwoundTo(caps, s1, b2), x)
    ensures !HoldsRetired(b1.fields, s.ids) ==> NoDuplicates(AfterUnwind(caps, AfterUnwind(caps, s, b1), b2).ids)
  {
    var s1 := AfterUnwind(caps, s, b1);
    var prev, cur1, cur2 := s.bound.value, UnwoundTo(caps, s, b1), UnwoundTo(caps, s1, b2);
    var d1 := DisplacedList(WorldAt(caps, b1), b1.registered, prev, cur1);
    var d2 := DisplacedList(WorldAt(caps, b2), b2.registered, cur1, cur2);
    RetireAllRecords(s, prev, d1);
    RetireAllRecords(s1, cur1, d2);
    UnwindRetiresOnce(caps, s, b1);
    DisplacedAre(WorldAt(caps, b2), b2.registered, cur1, cur2, OWNED_FIELDS);
    forall x | Some(x) in cur1 ensures x !in d1 {
      DisplacedLeftTheFields(caps, b1, prev, cur1, x);
    }
    assert forall x :: x in d2 ==> Some(x) in cur1;
    assert forall x :: x in d2 ==> (x in s1.ids <==> x in s.ids);
    ConcatNoDuplicatesIff(s1.ids, d2);
  }

  /** Without wrappers an instance is held by itself only. */
  lemma HeldWithoutWrappers(w: World, h: Option<Instance>, x: Instance)
    requires w.unwrap == map[] && h != Some(x)
    ensures HoldBy(w, h, x).NotHeld?
  {
    if h.Some? {
      assert EndsAt(w, h, 0);
      OutcomeIs(w, h, Some(x), NotFound);
    }
  }

  /** What a boundary finds when Services.Log holds v, the other fields are empty and nothing wraps anything. */
  function LogIs(v: Instance, outside: Outside): Boundary {
    Boundary(seq(OWNED_FIELDS, i => if i == 0 then Some(v) else None), [], map[], outside, {})
  }

  lemma FirstTwoDiffer(list: seq<Instance>)
    requires NoDuplicates(list)
    ensures |list| >= 2 ==> list[0] != list[1]
  {
  }

  lemma OnlyOne(list: seq<Instance>, u: Instance)
    requires NoDuplicates(list) && forall x :: x in list <==> x == u
    ensures list == [u]
  {
    assert forall i :: 0 <= i < |list| ==> list[i] == u by {
      assert forall i :: 0 <= i < |list| ==> list[i] in list;
    }
    FirstTwoDiffer(list);
    assert u in list;
  }

  lemma EmptyOrHasOne(list: seq<Instance>)
    ensures list == [] || exists x :: x in list
  {
    if list != [] {
      assert list[0] in list;
    }
  }

  lemma LogReplaced(caps: Caps, u: Instance, v: Instance, outside: Outside)
    requires caps.incomparable == {} && u != v
    ensures var b := LogIs(v, outside);
      DisplacedList(WorldAt(caps, b), b.registered, LogIs(u, outside).fields, b.fields) == [u]
  {
    var b, prev := LogIs(v, outside), LogIs(u, outside).fields;
    var w := WorldAt(caps, b);
    var list := DisplacedList(w, [], prev, b.fields);
    DisplacedWereBound(caps, b, prev, b.fields);
    DisplacedMember(w, [], prev, b.fields, OWNED_FIELDS, u);
    forall h | h in Holders(b.fields, []) ensures HoldBy(w, h, u).NotHeld? {
      HeldWithoutWrappers(w, h, u);
    }
    assert Replaced(w, prev, b.fields, 0) && prev[0] == Some(u);
    OnlyOne(list, u);
  }

  /** A boundary that finds only Services.Log replaced retires the log it held. */
  lemma LogBoundary(caps: Caps, s: AppState, u: Instance, v: Instance, outside: Outside)
    requires caps.incomparable == {} && u != v && v !in s.ids && s.bound == Some(LogIs(u, outside).fields)
    ensures var s' := AfterBoundary(caps, s, LogIs(v, outside));
      s'.ids == s.ids + [u] && s'.bound == Some(LogIs(v, outside).fields)
  {
    var b, prev := LogIs(v, outside), LogIs(u, outside).fields;
    assert forall f :: 0 < f < OWNED_FIELDS ==> !FieldChanged(WorldAt(caps, b), prev, b.fields, f);
    assert Succeeds(caps, s, b);
    LogReplaced(caps, u, v, outside);
    RetireAllRecords(Bound(caps, s, b), prev, [u]);
  }

  lemma FirstLogBoundary(caps: Caps, wiring: Wiring, v: Instance, outside: Outside)
    requires caps.incomparable == {}
    ensures var s' := AfterBoundary(caps, AppState(None, [], [], [], wiring), LogIs(v, outside));
      s'.ids == [] && s'.bound == Some(LogIs(v, outside).fields)
  {
    var s, b := AppState(None, [], [], [], wiring), LogIs(v, outside);
    assert forall f :: 0 <= f < OWNED_FIELDS ==> !FieldChanged(WorldAt(caps, b), b.fields, b.fields, f);
    assert Succeeds(caps, s, b);
    DisplacedWereBound(caps, b, b.fields, b.fields);
    var list := DisplacedList(WorldAt(caps, b), b.registered, b.fields, b.fields);
    EmptyOrHasOne(list);
    RetireAllRecords(Bound(caps, s, b), b.fields, list);
  }

  lemma LogUnwind(caps: Caps, s: AppState, u: Instance, v: Instance, outside: Outside)
    requires caps.incomparable == {} && u != v && s.bound == Some(LogIs(u, outside).fields)
    ensures var s' := AfterUnwind(caps, s, LogIs(v, outside));
      s'.ids == s.ids + [u] && s'.bound == Some(LogIs(v, outside).fields)
  {
    LogReplaced(caps, u, v, outside);
    RetireAllRecords(s, LogIs(u, outside).fields, [u]);
  }

  /** It happens, in a run from the empty app: two boundaries bind log 1 and then log 2, so 1 is retired; a chain module
      puts 1 back and fails; and the module's Shutdown replaces it again between the two unwinds. */
  lemma SecondUnwindRetiresTwice(caps: Caps, wiring: Wiring, outside: Outside)
    requires caps.incomparable == {}
    ensures var s := AfterBoundaries(caps, AppState(None, [], [], [], wiring), [LogIs(1, outside), LogIs(2, outside)]);
      AfterUnwind(caps, AfterUnwind(caps, s, LogIs(1, outside)), LogIs(3, outside)).ids == [1, 2, 1]
  {
    var s0 := AppState(None, [], [], [], wiring);
    var run := [LogIs(1, outside), LogIs(2, outside)];
    var s1 := AfterBoundary(caps, s0, run[0]);
    var s2 := AfterBoundary(caps, s1, run[1]);
    FirstLogBoundary(caps, wiring, 1, outside);
    LogBoundary(caps, s1, 1, 2, outside);
    assert run[1..][0] == run[1] && run[1..][1..] == [];
    assert AfterBoundaries(caps, s1, run[1..]) == AfterBoundaries(caps, s2, run[1..][1..]) == s2;
    var s3 := AfterUnwind(caps, s2, LogIs(1, outside));
    LogUnwind(caps, s2, 2, 1, outside);
    LogUnwind(caps, s3, 1, 3, outside);
  }
}
