/** What a lifecycle boundary displaces and retires (rebind_owned.go, displacedSince; rebind_retire.go). */
module Retire {
  import opened Options
  import opened UnwrapChain

  const OWNED_FIELDS := 14

  /** The value each owned Services field holds, in ownedFields order; a nil or typed-nil field is None. */
  type Owned = s: seq<Option<Instance>> | |s| == OWNED_FIELDS witness seq(OWNED_FIELDS, _ => None)

  const FIELD_CRYPTO := 2
  const FIELD_DB := 3
  const FIELD_AUTH := 4
  const FIELD_CSRF := 5
  const FIELD_CACHE := 7
  const FIELD_QUEUE := 9
  const FIELD_SCHEDULER := 11
  const FIELD_MAIL := 12
  const FIELD_ERRORS := 1

  predicate NoDuplicates(s: seq<Instance>) {
    forall i, j :: 0 <= i < j < |s| ==> s[i] != s[j]
  }

  /** Field i held an instance at prev that it does not hold at cur. */
  predicate Replaced(w: World, prev: Owned, cur: Owned, i: nat)
    requires i < OWNED_FIELDS
  {
    prev[i].Some? && !SameInstance(w, prev[i], cur[i])
  }

  // ---------------------------------------------------------------- who still holds an instance

  /** The answer for one chain, by what it claims. */
  ghost function OutcomeOf(w: World, v: Option<Instance>, target: Option<Instance>): Outcome {
    if Answers(w, v, target, Found) then Found
    else if Answers(w, v, target, NotFound) then NotFound
    else if Answers(w, v, target, Unknown(true)) then Unknown(true)
    else Unknown(false)
  }

  lemma OutcomeIs(w: World, v: Option<Instance>, target: Option<Instance>, outcome: Outcome)
    requires Answers(w, v, target, outcome)
    ensures OutcomeOf(w, v, target) == outcome
  {
    AnswersExclusive(w, v, target, OutcomeOf(w, v, target), outcome);
  }

  /** How the first of holders that holds x holds it. */
  datatype Hold = NotHeld | Surely | Unsure(panicked: bool)

  ghost function HoldBy(w: World, h: Option<Instance>, x: Instance): Hold {
    if h.None? then NotHeld
    else if SameInstance(w, h, Some(x)) then Surely
    else match OutcomeOf(w, h, Some(x))
      case Found => Surely
      case NotFound => NotHeld
      case Unknown(panicked) => Unsure(panicked)
  }

  ghost function FirstHold(w: World, holders: seq<Option<Instance>>, x: Instance): Hold {
    if holders == [] then NotHeld
    else if HoldBy(w, holders[0], x).NotHeld? then FirstHold(w, holders[1..], x)
    else HoldBy(w, holders[0], x)
  }

  /** Some holder is x, reaches x by unwrapping, or cannot be followed to its end. */
  ghost predicate Held(w: World, holders: seq<Option<Instance>>, x: Instance) {
    exists h :: h in holders && !HoldBy(w, h, x).NotHeld?
  }

  lemma {:induction false} FirstHoldIsHeld(w: World, holders: seq<Option<Instance>>, x: Instance)
    ensures FirstHold(w, holders, x).NotHeld? <==> !Held(w, holders, x)
  {
    if holders != [] {
      FirstHoldIsHeld(w, holders[1..], x);
      assert holders == [holders[0]] + holders[1..];
    }
  }

  lemma {:induction false} FirstHoldSkips(w: World, skipped: seq<Option<Instance>>, rest: seq<Option<Instance>>,
                                          x: Instance)
    requires forall h :: h in skipped ==> HoldBy(w, h, x).NotHeld?
    ensures FirstHold(w, skipped + rest, x) == FirstHold(w, rest, x)
  {
    if skipped == [] {
      assert skipped + rest == rest;
    } else {
      assert (skipped + rest)[1..] == skipped[1..] + rest;
      FirstHoldSkips(w, skipped[1..], rest, x);
    }
  }

  /** Everything that may hold an instance at cur: the owned fields, then the components and their hooks. */
  function Holders(cur: Owned, registered: seq<Option<Instance>>): seq<Option<Instance>> {
    cur + registered
  }

  /** x was displaced between prev and cur, and nothing at cur holds it. */
  ghost predicate Displaced(w: World, registered: seq<Option<Instance>>, prev: Owned, cur: Owned, x: Instance) {
    DisplacedFrom(w, registered, prev, cur, OWNED_FIELDS, x)
  }

  // ---------------------------------------------------------------- displacedSince

  /** The instances displaced from the first n fields, in field order. */
  ghost function DisplacedIn(w: World, registered: seq<Option<Instance>>, prev: Owned, cur: Owned, n: nat)
    : seq<Instance>
    requires n <= OWNED_FIELDS
  {
    if n == 0 then []
    else
      var before := DisplacedIn(w, registered, prev, cur, n - 1);
      if Replaced(w, prev, cur, n - 1) && prev[n-1].value !in before
         && FirstHold(w, Holders(cur, registered), prev[n-1].value).NotHeld?
      then before + [prev[n-1].value] else before
  }

  /** The fields among the first n whose displaced instance is kept because a chain could not be followed. */
  ghost function KeptIn(w: World, registered: seq<Option<Instance>>, prev: Owned, cur: Owned, n: nat): seq<nat>
    requires n <= OWNED_FIELDS
  {
    if n == 0 then []
    else
      var before := KeptIn(w, registered, prev, cur, n - 1);
      if Replaced(w, prev, cur, n - 1) && FirstHold(w, Holders(cur, registered), prev[n-1].value).Unsure?
      then before + [n - 1] else before
  }

  ghost function DisplacedList(w: World, registered: seq<Option<Instance>>, prev: Owned, cur: Owned): seq<Instance> {
    DisplacedIn(w, registered, prev, cur, OWNED_FIELDS)
  }

  /** The first holder of was, walking the holders in order. */
  method HoldOf(w: World, holders: seq<Option<Instance>>, was: Instance) returns (hold: Hold)
    ensures hold == FirstHold(w, holders, was)
  {
    for i := 0 to |holders|
      invariant forall h :: h in holders[..i] ==> HoldBy(w, h, was).NotHeld?
    {
      assert holders == holders[..i] + holders[i..];
      FirstHoldSkips(w, holders[..i], holders[i..], was);
      if holders[i].Some? {
        if SameInstance(w, holders[i], Some(was)) {
          return Surely;
        }
        var outcome, _ := UnwrapHolds(w, holders[i], Some(was));
        OutcomeIs(w, holders[i], Some(was), outcome);
        if outcome.Found? {
          return Surely;
        }
        if outcome.Unknown? {
          return Unsure(outcome.panicked);
        }
      }
      assert holders[..i+1] == holders[..i] + [holders[i]];
    }
    assert holders == holders + [] && holders == holders[..|holders|];
    FirstHoldSkips(w, holders, [], was);
    return NotHeld;
  }

  /** rebind_owned.go, displacedSince. kept lists the fields whose displaced instance is kept, one report each. */
  method DisplacedSince(w: World, registered: seq<Option<Instance>>, prev: Owned, cur: Owned)
    returns (displaced: seq<Instance>, kept: seq<nat>)
    ensures displaced == DisplacedList(w, registered, prev, cur)
    ensures kept == KeptIn(w, registered, prev, cur, OWNED_FIELDS)
  {
    displaced, kept := [], [];
    var holders := cur + registered;
    for i := 0 to OWNED_FIELDS
      invariant displaced == DisplacedIn(w, registered, prev, cur, i)
      invariant kept == KeptIn(w, registered, prev, cur, i)
    {
      if prev[i].None? || SameInstance(w, prev[i], cur[i]) {
        continue;
      }
      var was := prev[i].value;
      if was in displaced {
        DisplacedAre(w, registered, prev, cur, i);
        FirstHoldIsHeld(w, Holders(cur, registered), was);
        continue;
      }
      var hold := HoldOf(w, holders, was);
      if hold.Unsure? {
        kept := kept + [i];
      }
      if hold.NotHeld? {
        displaced := displaced + [was];
      }
    }
  }

  ghost predicate DisplacedFrom(w: World, registered: seq<Option<Instance>>, prev: Owned, cur: Owned, n: nat,
                                x: Instance)
    requires n <= OWNED_FIELDS
  {
    && (exists i :: 0 <= i < n && Replaced(w, prev, cur, i) && prev[i] == Some(x))
    && !Held(w, Holders(cur, registered), x)
  }

  lemma {:induction false} DisplacedMember(w: World, registered: seq<Option<Instance>>, prev: Owned, cur: Owned, n: nat,
                                           x: Instance)
    requires n <= OWNED_FIELDS
    ensures x in DisplacedIn(w, registered, prev, cur, n) <==> DisplacedFrom(w, registered, prev, cur, n, x)
  {
    if n > 0 {
      DisplacedMember(w, registered, prev, cur, n - 1, x);
      FirstHoldIsHeld(w, Holders(cur, registered), x);
    }
  }

  /** displacedSince returns, once each, exactly the displaced instances nothing holds. */
  lemma {:induction false} DisplacedAre(w: World, registered: seq<Option<Instance>>, prev: Owned, cur: Owned, n: nat)
    requires n <= OWNED_FIELDS
    ensures NoDuplicates(DisplacedIn(w, registered, prev, cur, n))
    ensures forall x :: x in DisplacedIn(w, registered, prev, cur, n) <==> DisplacedFrom(w, registered, prev, cur, n, x)
  {
    forall x ensures x in DisplacedIn(w, registered, prev, cur, n) <==> DisplacedFrom(w, registered, prev, cur, n, x) {
      DisplacedMember(w, registered, prev, cur, n, x);
    }
    if n > 0 {
      DisplacedAre(w, registered, prev, cur, n - 1);
    }
  }

  /** Each field whose displaced instance is kept is reported, in field order: an instance displaced from several
      fields is reported once per field. */
  lemma {:induction false} KeptAre(w: World, registered: seq<Option<Instance>>, prev: Owned, cur: Owned, n: nat)
    requires n <= OWNED_FIELDS
    ensures var kept := KeptIn(w, registered, prev, cur, n);
      && (forall i :: i in kept <==>
            0 <= i < n && Replaced(w, prev, cur, i) && FirstHold(w, Holders(cur, registered), prev[i].value).Unsure?)
      && (forall a, b :: 0 <= a < b < |kept| ==> kept[a] < kept[b])
  {
    if n > 0 {
      KeptAre(w, registered, prev, cur, n - 1);
      var before := KeptIn(w, registered, prev, cur, n - 1);
      assert forall a :: 0 <= a < |before| ==> before[a] in before;
    }
  }

  /** A displaced instance is in no owned field, and is no component, hook or wrapper's target. */
  lemma DisplacedIsFree(w: World, registered: seq<Option<Instance>>, prev: Owned, cur: Owned, x: Instance, h: Instance)
    requires Displaced(w, registered, prev, cur, x) && x !in w.incomparable
    requires Some(h) in cur || Some(h) in registered
    ensures h != x
    ensures !ReachedWithin(w, Some(h), Some(x), MAX_UNWRAP_DEPTH)
    ensures EndsWithout(w, Some(h), Some(x))
  {
    assert Some(h) in Holders(cur, registered);
    assert HoldBy(w, Some(h), x).NotHeld?;
  }

  /** The fields x left between prev and cur. */
  function FieldsLeft(w: World, prev: Owned, cur: Owned, x: Instance): set<int> {
    set i | 0 <= i < OWNED_FIELDS && prev[i] == Some(x) && Replaced(w, prev, cur, i)
  }

  /** displacedSince's comment says a kept instance is reported once. It is reported once for each field it left, so
      once exactly when it left one field. */
  lemma KeptReportedPerField(w: World, registered: seq<Option<Instance>>, prev: Owned, cur: Owned, x: Instance)
    requires FirstHold(w, Holders(cur, registered), x).Unsure?
    ensures (set i | 0 <= i < OWNED_FIELDS && prev[i] == Some(x) && i in KeptIn(w, registered, prev, cur, OWNED_FIELDS))
      == FieldsLeft(w, prev, cur, x)
  {
    KeptAre(w, registered, prev, cur, OWNED_FIELDS);
  }

  /** And it can be reported twice: instance 5 left two fields for a wrapper whose Unwrap panics. */
  lemma KeptReportedTwice(w: World, prev: Owned, cur: Owned)
    requires w == World(map[6 := Panics], {})
    requires prev == seq(OWNED_FIELDS, i => if i < 2 then Some(5) else None)
    requires cur == seq(OWNED_FIELDS, i => if i < 2 then Some(6) else None)
    ensures 0 in KeptIn(w, [], prev, cur, OWNED_FIELDS) && 1 in KeptIn(w, [], prev, cur, OWNED_FIELDS)
    ensures prev[0] == prev[1] == Some(5)
  {
    assert PanicsAt(w, Some(6), 0);
    StopsHere(w, Some(6), Some(5), 0);
    OutcomeIs(w, Some(6), Some(5), Unknown(true));
    assert Holders(cur, [])[0] == Some(6);
    assert FirstHold(w, Holders(cur, []), 5) == Unsure(true);
    KeptAre(w, [], prev, cur, OWNED_FIELDS);
  }
}
