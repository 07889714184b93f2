/** Following a service's Unwrap chain (rebind_owned.go, unwrapHolds). Instances are identities; what calling
    Unwrap on one does is given by a world. */
module UnwrapChain {
  import opened Options

  type Instance = nat

  /** What calling Unwrap on an instance does: it has no such method, it panics, or it gives a value (or nil). */
  datatype Unwrapped = NoMethod | Panics | Gives(next: Option<Instance>)

  /** incomparable holds the values Go cannot compare with ==. */
  datatype World = World(unwrap: map<Instance, Unwrapped>, incomparable: set<Instance>)

  const MAX_UNWRAP_DEPTH := 8

  function Unwrap(w: World, v: Instance): Unwrapped {
    if v in w.unwrap then w.unwrap[v] else NoMethod
  }

  predicate SameInstance(w: World, a: Option<Instance>, b: Option<Instance>) {
    a.Some? && b.Some? && a == b && a.value !in w.incomparable
  }

  datatype Outcome = NotFound | Found | Unknown(panicked: bool)

  // ---------------------------------------------------------------- the chain, and what the answers mean

  /** The value k unwraps away from v, if the chain gets that far. */
  ghost function Link(w: World, v: Option<Instance>, k: nat): Option<Instance> {
    if k == 0 then v
    else
      var prev := Link(w, v, k - 1);
      if prev.Some? && Unwrap(w, prev.value).Gives? then Unwrap(w, prev.value).next else None
  }

  /** The target is no further than upTo unwraps away. */
  ghost predicate ReachedWithin(w: World, v: Option<Instance>, target: Option<Instance>, upTo: nat) {
    exists k :: 1 <= k <= upTo && SameInstance(w, Link(w, v, k), target)
  }

  /** The chain ends after m unwraps: the value there has no Unwrap, or unwraps to nil. */
  ghost predicate EndsAt(w: World, v: Option<Instance>, m: nat) {
    Link(w, v, m).Some? && (Unwrap(w, Link(w, v, m).value).NoMethod? || Unwrap(w, Link(w, v, m).value) == Gives(None))
  }

  ghost predicate PanicsAt(w: World, v: Option<Instance>, m: nat) {
    Link(w, v, m).Some? && Unwrap(w, Link(w, v, m).value).Panics?
  }

  /** The chain can be followed to its end, within the depth, and does not meet the target. */
  ghost predicate EndsWithout(w: World, v: Option<Instance>, target: Option<Instance>) {
    v.None? || exists m :: 0 <= m <= MAX_UNWRAP_DEPTH && EndsAt(w, v, m) && !ReachedWithin(w, v, target, m)
  }

  /** The three answers, each with exactly what it claims about the chain. */
  ghost predicate Answers(w: World, v: Option<Instance>, target: Option<Instance>, outcome: Outcome) {
    match outcome
    case Found => ReachedWithin(w, v, target, MAX_UNWRAP_DEPTH)
    case NotFound => EndsWithout(w, v, target)
    case Unknown(panicked) =>
      !ReachedWithin(w, v, target, MAX_UNWRAP_DEPTH)
      && if panicked then exists m :: 0 <= m <= MAX_UNWRAP_DEPTH && PanicsAt(w, v, m)
         else Link(w, v, MAX_UNWRAP_DEPTH + 1).Some?
  }

  /** Links before a defined one are defined. */
  lemma {:induction false} LinksBefore(w: World, v: Option<Instance>, i: nat, k: nat)
    requires i <= k && Link(w, v, k).Some?
    ensures Link(w, v, i).Some?
    decreases k - i
  {
    if i < k {
      assert Link(w, v, k - 1).Some?;
      LinksBefore(w, v, i, k - 1);
    }
  }

  /** Past its end a chain has no links, so it neither meets a target nor panics nor goes on there. */
  lemma EndIsLast(w: World, v: Option<Instance>, m: nat, other: Outcome, target: Option<Instance>)
    requires m <= MAX_UNWRAP_DEPTH && EndsAt(w, v, m) && !ReachedWithin(w, v, target, m)
    requires !other.NotFound?
    ensures !Answers(w, v, target, other)
  {
    assert Link(w, v, m + 1).None?;
    forall k | m < k ensures Link(w, v, k).None? {
      if Link(w, v, k).Some? { LinksBefore(w, v, m + 1, k); }
    }
    forall k | 0 <= k < m ensures !PanicsAt(w, v, k) {
      LinksBefore(w, v, k + 1, m);
    }
  }

  lemma NothingFromNil(w: World, v: Option<Instance>, target: Option<Instance>, other: Outcome)
    requires v.None? && !other.NotFound?
    ensures !Answers(w, v, target, other)
  {
    forall k: nat ensures Link(w, v, k).None? {
      if Link(w, v, k).Some? { LinksBefore(w, v, 0, k); }
    }
  }

  lemma PanicIsLast(w: World, v: Option<Instance>, target: Option<Instance>)
    ensures !(Answers(w, v, target, Unknown(true)) && Answers(w, v, target, Unknown(false)))
  {
    if Answers(w, v, target, Unknown(true)) && Answers(w, v, target, Unknown(false)) {
      var m :| 0 <= m <= MAX_UNWRAP_DEPTH && PanicsAt(w, v, m);
      LinksBefore(w, v, m + 1, MAX_UNWRAP_DEPTH + 1);
    }
  }

  lemma NotFoundExcludes(w: World, v: Option<Instance>, target: Option<Instance>, other: Outcome)
    requires EndsWithout(w, v, target) && !other.NotFound?
    ensures !Answers(w, v, target, other)
  {
    if v.Some? {
      var m :| 0 <= m <= MAX_UNWRAP_DEPTH && EndsAt(w, v, m) && !ReachedWithin(w, v, target, m);
      EndIsLast(w, v, m, other, target);
    } else {
      NothingFromNil(w, v, target, other);
    }
  }

  /** No two answers fit one chain, so each answer is given exactly when its claim holds. */
  lemma AnswersExclusive(w: World, v: Option<Instance>, target: Option<Instance>, a: Outcome, b: Outcome)
    requires Answers(w, v, target, a) && Answers(w, v, target, b)
    ensures a == b
  {
    if a.NotFound? && !b.NotFound? {
      NotFoundExcludes(w, v, target, b);
    } else if b.NotFound? && !a.NotFound? {
      NotFoundExcludes(w, v, target, a);
    } else {
      PanicIsLast(w, v, target);
    }
  }

  /** A chain that comes back to a value goes round for ever: what it has not met by then it never meets. */
  lemma {:induction false} CycleNeverEnds(w: World, v: Option<Instance>, i: nat, d: nat, k: nat)
    requires i < d && Link(w, v, i).Some? && Link(w, v, i) == Link(w, v, d)
    ensures Link(w, v, k).Some?
    ensures d < k ==> Link(w, v, k) == Link(w, v, k - (d - i))
    decreases k
  {
    if k <= d {
      LinksBefore(w, v, k, d);
    } else {
      CycleNeverEnds(w, v, i, d, k - 1);
      CycleNeverEnds(w, v, i, d, k - (d - i));
    }
  }

  lemma {:induction false} CycleMeetsNothingNew(w: World, v: Option<Instance>, target: Option<Instance>, i: nat, d: nat,
                                                upTo: nat)
    requires i < d && Link(w, v, i).Some? && Link(w, v, i) == Link(w, v, d)
    requires !ReachedWithin(w, v, target, d)
    ensures !ReachedWithin(w, v, target, upTo)
    decreases upTo
  {
    if upTo > d {
      CycleMeetsNothingNew(w, v, target, i, d, upTo - 1);
      CycleNeverEnds(w, v, i, d, upTo);
      var back := upTo - (d - i);
      assert back >= 1 && Link(w, v, upTo) == Link(w, v, back);
    }
  }

  // ---------------------------------------------------------------- the code

  /** rebind_owned.go, unwrapHolds. seen records the comparable values met; a value met again ends the walk. */
  method UnwrapHolds(w: World, v: Option<Instance>, target: Option<Instance>) returns (outcome: Outcome, calls: nat)
    ensures Answers(w, v, target, outcome)
    ensures calls <= MAX_UNWRAP_DEPTH + 1
  {
    var seen: set<Instance> := {};
    var cur := v;
    var depth := 0;
    calls := 0;
    while true
      invariant depth <= MAX_UNWRAP_DEPTH && calls == depth
      invariant cur == Link(w, v, depth)
      invariant depth > 0 ==> cur.Some?
      invariant forall x :: x in seen ==> exists i :: 0 <= i < depth && Link(w, v, i) == Some(x)
      invariant !ReachedWithin(w, v, target, depth)
      decreases MAX_UNWRAP_DEPTH - depth
    {
      if cur.None? {
        return NotFound, calls;
      }
      if cur.value !in w.incomparable {
        if cur.value in seen {
          ghost var i :| 0 <= i < depth && Link(w, v, i) == Some(cur.value);
          CycleMeetsNothingNew(w, v, target, i, depth, MAX_UNWRAP_DEPTH);
          CycleNeverEnds(w, v, i, depth, MAX_UNWRAP_DEPTH + 1);
          return Unknown(false), calls;
        }
        seen := seen + {cur.value};
      }
      var result := Unwrap(w, cur.value);
      calls := calls + 1;
      if result.Panics? {
        assert PanicsAt(w, v, depth);
        StopsHere(w, v, target, depth);
        return Unknown(true), calls;
      }
      if result.NoMethod? || result.next.None? {
        assert EndsAt(w, v, depth);
        return NotFound, calls;
      }
      assert Link(w, v, depth + 1) == result.next;
      if depth >= MAX_UNWRAP_DEPTH {
        return Unknown(false), calls;
      }
      if SameInstance(w, result.next, target) {
        return Found, calls;
      }
      cur := result.next;
      depth := depth + 1;
    }
  }

  /** A chain that panics at m has no further links to meet the target at. */
  lemma StopsHere(w: World, v: Option<Instance>, target: Option<Instance>, m: nat)
    requires PanicsAt(w, v, m) && !ReachedWithin(w, v, target, m)
    ensures !ReachedWithin(w, v, target, MAX_UNWRAP_DEPTH)
  {
    assert Link(w, v, m + 1).None?;
    forall k | m < k ensures Link(w, v, k).None? {
      if Link(w, v, k).Some? { LinksBefore(w, v, m + 1, k); }
    }
  }
}
