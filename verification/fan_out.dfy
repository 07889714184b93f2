/** The bounded fan-outs of async/parallel.go (AllN, MapN, AllWithErrorN, TryForEach) as a step system: the caller's
    goroutine spawns one worker per function, each worker writes its own slot, gives its semaphore place back and leaves
    the wait group. What a function does when called does not depend on the schedule; it always comes back. */
module FanOut {
  import opened Options

  /** What calling a function does. Functions without an error result never answer Error. */
  datatype Call = Returns(value: nat) | Error(error: nat) | Panic(error: nat)

  /** One worker's places in the result slices; a slot starts as zero values. */
  datatype Slot = Slot(value: nat, panicError: Option<nat>, error: Option<nat>)

  const EMPTY := Slot(0, None, None)

  function SlotFor(c: Call): Slot {
    match c
    case Returns(v) => Slot(v, None, None)
    case Error(e) => Slot(0, None, Some(e))
    case Panic(e) => Slot(0, Some(e), None)
  }

  const DEFAULT_CAP := 1024

  function EffectiveCap(requested: int, n: nat): (cap: nat)
    ensures n > 0 ==> 1 <= cap <= n
    ensures 0 < requested ==> cap <= requested
    ensures requested <= 0 ==> cap <= DEFAULT_CAP
    ensures cap == n || cap == requested || cap == DEFAULT_CAP
  {
    var cap := if requested <= 0 then DEFAULT_CAP else requested;
    if cap > n then n else cap
  }

  // ---------------------------------------------------------------- the step system

  datatype Phase = Waiting | Started | Wrote | Released | Finished

  function Rank(p: Phase): (r: nat)
    ensures r <= 4
  {
    match p
    case Waiting => 0
    case Started => 1
    case Wrote => 2
    case Released => 3
    case Finished => 4
  }

  datatype State = State(next: nat, phases: seq<Phase>, semaphore: nat, group: nat, slots: seq<Slot>)

  datatype Event = Spawn | Write(i: nat) | Release(i: nat) | Leave(i: nat)

  function Init(n: nat): State {
    State(0, seq(n, i => Waiting), 0, 0, seq(n, i => EMPTY))
  }

  predicate Enabled(cap: nat, s: State, e: Event) {
    match e
    case Spawn => s.next < |s.phases| && s.semaphore < cap
    case Write(i) => i < |s.phases| && s.phases[i].Started?
    case Release(i) => i < |s.phases| && s.phases[i].Wrote? && s.semaphore > 0
    case Leave(i) => i < |s.phases| && s.phases[i].Released? && s.group > 0
  }

  function Apply(calls: seq<Call>, s: State, e: Event): State
    requires |s.phases| == |s.slots| == |calls|
  {
    match e
    case Spawn =>
      if s.next < |s.phases|
      then s.(next := s.next + 1, phases := s.phases[s.next := Started],
              semaphore := s.semaphore + 1, group := s.group + 1)
      else s
    case Write(i) =>
      if i < |s.phases| then s.(phases := s.phases[i := Wrote], slots := s.slots[i := SlotFor(calls[i])]) else s
    case Release(i) =>
      if i < |s.phases| && s.semaphore > 0
      then s.(phases := s.phases[i := Released], semaphore := s.semaphore - 1)
      else s
    case Leave(i) =>
      if i < |s.phases| && s.group > 0 then s.(phases := s.phases[i := Finished], group := s.group - 1) else s
  }

  ghost predicate Legal(calls: seq<Call>, cap: nat, s: State, run: seq<Event>)
    requires |s.phases| == |s.slots| == |calls|
    decreases |run|
  {
    run == [] || (Enabled(cap, s, run[0]) && Legal(calls, cap, Apply(calls, s, run[0]), run[1..]))
  }

  function Exec(calls: seq<Call>, s: State, run: seq<Event>): (t: State)
    requires |s.phases| == |s.slots| == |calls|
    ensures |t.phases| == |t.slots| == |calls|
    decreases |run|
  {
    if run == [] then s else Exec(calls, Apply(calls, s, run[0]), run[1..])
  }

  /** The caller is past wg.Wait. */
  predicate Complete(s: State) {
    s.next == |s.phases| && s.group == 0
  }

  // ---------------------------------------------------------------- counting workers

  /** Workers whose phase lies between two ranks. */
  function Between(phases: seq<Phase>, low: nat, high: nat): (c: nat)
    ensures c <= |phases|
  {
    if phases == [] then 0
    else (if low <= Rank(phases[0]) <= high then 1 else 0) + Between(phases[1..], low, high)
  }

  lemma {:induction false} BetweenMoves(phases: seq<Phase>, i: nat, p: Phase, low: nat, high: nat)
    requires i < |phases|
    ensures Between(phases[i := p], low, high) + (if low <= Rank(phases[i]) <= high then 1 else 0) ==
      Between(phases, low, high) + (if low <= Rank(p) <= high then 1 else 0)
  {
    if i == 0 {
      assert phases[0 := p][1..] == phases[1..];
    } else {
      BetweenMoves(phases[1..], i - 1, p, low, high);
      assert phases[i := p][1..] == phases[1..][i - 1 := p];
    }
  }

  lemma {:induction false} BetweenNone(phases: seq<Phase>, low: nat, high: nat)
    ensures Between(phases, low, high) == 0 <==> forall i :: 0 <= i < |phases| ==> !(low <= Rank(phases[i]) <= high)
  {
    if phases != [] {
      BetweenNone(phases[1..], low, high);
      assert forall i :: 1 <= i < |phases| ==> phases[i] == phases[1..][i - 1];
      assert forall i :: 0 <= i < |phases| - 1 ==> phases[1..][i] == phases[i + 1];
    }
  }

  lemma {:induction false} BetweenWider(phases: seq<Phase>, low: nat, high: nat, wider: nat)
    requires high <= wider
    ensures Between(phases, low, high) <= Between(phases, low, wider)
  {
    if phases != [] {
      BetweenWider(phases[1..], low, high, wider);
    }
  }

  /** Steps still to be taken. */
  function Left(phases: seq<Phase>): nat {
    if phases == [] then 0 else 4 - Rank(phases[0]) + Left(phases[1..])
  }

  lemma {:induction false} LeftMoves(phases: seq<Phase>, i: nat, p: Phase)
    requires i < |phases|
    ensures Left(phases[i := p]) + Rank(p) == Left(phases) + Rank(phases[i])
  {
    if i == 0 {
      assert phases[0 := p][1..] == phases[1..];
    } else {
      LeftMoves(phases[1..], i - 1, p);
      assert phases[i := p][1..] == phases[1..][i - 1 := p];
    }
  }

  lemma {:induction false} LeftOfNew(n: nat)
    ensures Left(seq(n, i => Waiting)) == 4 * n
  {
    if n > 0 {
      LeftOfNew(n - 1);
      assert seq(n, i => Waiting)[1..] == seq(n - 1, i => Waiting);
    }
  }

  lemma {:induction false} LeftOfFinished(phases: seq<Phase>)
    requires forall i :: 0 <= i < |phases| ==> phases[i].Finished?
    ensures Left(phases) == 0
  {
    if phases != [] {
      LeftOfFinished(phases[1..]);
    }
  }

  // ---------------------------------------------------------------- what every step keeps

  ghost predicate Inv(calls: seq<Call>, cap: nat, s: State) {
    && |s.phases| == |s.slots| == |calls| && s.next <= |calls|
    && (forall i :: 0 <= i < |calls| ==> (s.phases[i].Waiting? <==> i >= s.next))
    && (forall i :: 0 <= i < |calls| ==> s.slots[i] == if Rank(s.phases[i]) >= 2 then SlotFor(calls[i]) else EMPTY)
    && s.semaphore == Between(s.phases, 1, 2) <= cap
    && s.group == Between(s.phases, 1, 3)
  }

  lemma {:induction false} InitInv(calls: seq<Call>, cap: nat)
    ensures Inv(calls, cap, Init(|calls|))
  {
    BetweenNone(Init(|calls|).phases, 1, 2);
    BetweenNone(Init(|calls|).phases, 1, 3);
  }

  lemma StepKeeps(calls: seq<Call>, cap: nat, s: State, e: Event)
    requires Inv(calls, cap, s) && Enabled(cap, s, e)
    ensures Inv(calls, cap, Apply(calls, s, e))
    ensures Left(Apply(calls, s, e).phases) + 1 == Left(s.phases)
  {
    var i := if e.Spawn? then s.next else e.i;
    var p := match e case Spawn => Started case Write(_) => Wrote case Release(_) => Released case Leave(_) => Finished;
    BetweenMoves(s.phases, i, p, 1, 2);
    BetweenMoves(s.phases, i, p, 1, 3);
    LeftMoves(s.phases, i, p);
  }

  lemma {:induction false} RunKeeps(calls: seq<Call>, cap: nat, s: State, run: seq<Event>)
    requires Inv(calls, cap, s) && Legal(calls, cap, s, run)
    ensures Inv(calls, cap, Exec(calls, s, run))
    ensures Left(Exec(calls, s, run).phases) + |run| == Left(s.phases)
    decreases |run|
  {
    if run != [] {
      StepKeeps(calls, cap, s, run[0]);
      RunKeeps(calls, cap, Apply(calls, s, run[0]), run[1..]);
    }
  }

  // ---------------------------------------------------------------- every schedule

  /** At most cap functions are being called at any moment of any schedule. */
  lemma NeverOverCap(calls: seq<Call>, cap: nat, run: seq<Event>)
    requires Legal(calls, cap, Init(|calls|), run)
    ensures Between(Exec(calls, Init(|calls|), run).phases, 1, 1) <= cap
  {
    InitInv(calls, cap);
    RunKeeps(calls, cap, Init(|calls|), run);
    BetweenWider(Exec(calls, Init(|calls|), run).phases, 1, 1, 2);
  }

  /** A schedule can always go on until the caller is past the wait, and no schedule takes more than four steps per
      function; one that is complete has taken exactly that many. */
  lemma AlwaysFinishes(calls: seq<Call>, cap: nat, run: seq<Event>)
    requires Legal(calls, cap, Init(|calls|), run) && cap > 0
    ensures var s := Exec(calls, Init(|calls|), run);
      && |run| <= 4 * |calls|
      && (Complete(s) <==> |run| == 4 * |calls|)
      && (Complete(s) || exists e :: Enabled(cap, s, e))
  {
    InitInv(calls, cap);
    RunKeeps(calls, cap, Init(|calls|), run);
    LeftOfNew(|calls|);
    var s := Exec(calls, Init(|calls|), run);
    if Complete(s) {
      AllFinished(calls, cap, s);
      LeftOfFinished(s.phases);
    } else {
      StepLeft(calls, cap, s);
      var e :| Enabled(cap, s, e);
      StepKeeps(calls, cap, s, e);
    }
  }

  lemma AllFinished(calls: seq<Call>, cap: nat, s: State)
    requires Inv(calls, cap, s) && Complete(s)
    ensures forall i :: 0 <= i < |calls| ==> s.phases[i].Finished?
  {
    BetweenNone(s.phases, 1, 3);
  }

  lemma StepLeft(calls: seq<Call>, cap: nat, s: State)
    requires Inv(calls, cap, s) && !Complete(s) && cap > 0
    ensures exists e :: Enabled(cap, s, e)
  {
    if s.group == 0 {
      BetweenWider(s.phases, 1, 2, 3);
      assert Enabled(cap, s, Spawn);
    } else {
      BetweenNone(s.phases, 1, 3);
      var i :| 0 <= i < |s.phases| && 1 <= Rank(s.phases[i]) <= 3;
      if s.phases[i].Started? {
        assert Enabled(cap, s, Write(i));
      } else if s.phases[i].Wrote? {
        BetweenNone(s.phases, 1, 2);
        assert Enabled(cap, s, Release(i));
      } else {
        assert Enabled(cap, s, Leave(i));
      }
    }
  }

  /** What a plain loop calling the functions one after the other leaves in the slices. */
  method Sequential(calls: seq<Call>) returns (slots: seq<Slot>)
    ensures slots == AllSlots(calls)
  {
    slots := [];
    for i := 0 to |calls|
      invariant slots == AllSlots(calls[..i])
    {
      slots := slots + [SlotFor(calls[i])];
      assert calls[..i + 1] == calls[..i] + [calls[i]];
    }
    assert calls[..|calls|] == calls;
  }

  function AllSlots(calls: seq<Call>): seq<Slot> {
    seq(|calls|, i requires 0 <= i < |calls| => SlotFor(calls[i]))
  }

  /** When the caller is past the wait, the slices are those of the plain loop, whatever the schedule was. */
  lemma SameAsSequential(calls: seq<Call>, cap: nat, run: seq<Event>)
    requires Legal(calls, cap, Init(|calls|), run) && Complete(Exec(calls, Init(|calls|), run))
    ensures Exec(calls, Init(|calls|), run).slots == AllSlots(calls)
  {
    InitInv(calls, cap);
    RunKeeps(calls, cap, Init(|calls|), run);
    AllFinished(calls, cap, Exec(calls, Init(|calls|), run));
  }

  // ---------------------------------------------------------------- what each helper answers

  /** No function before k fails, and k is the first that does, or there is none. */
  ghost predicate FirstFailing(calls: seq<Call>, k: nat) {
    k <= |calls| && (forall i :: 0 <= i < k ==> calls[i].Returns?) && (k < |calls| ==> !calls[k].Returns?)
  }

  /** There is only one such index, so an answer given by it is determined. */
  lemma OneFirstFailure(calls: seq<Call>, j: nat, k: nat)
    requires FirstFailing(calls, j) && FirstFailing(calls, k)
    ensures j == k
  {
  }

  /** The index a plain loop stops at. */
  function FirstFailure(calls: seq<Call>): (k: nat)
    ensures FirstFailing(calls, k)
  {
    if calls == [] || !calls[0].Returns? then 0 else 1 + FirstFailure(calls[1..])
  }

  /** The lowest-index error, if any function failed. */
  function FirstError(calls: seq<Call>): Option<nat> {
    var k := FirstFailure(calls);
    if k < |calls| then Some(calls[k].error) else None
  }

  /** The slices when the caller is past the wait, under the cap asked for. */
  ghost predicate Collected(calls: seq<Call>, requested: int, run: seq<Event>, slots: seq<Slot>) {
    && Legal(calls, EffectiveCap(requested, |calls|), Init(|calls|), run)
    && Complete(Exec(calls, Init(|calls|), run)) && slots == Exec(calls, Init(|calls|), run).slots
  }

  /** AllN and MapN under any schedule: every value in order, zero for a panic, and the lowest-index panic. */
  method AllN(slots: seq<Slot>, ghost calls: seq<Call>, ghost requested: int, ghost run: seq<Event>)
    returns (values: seq<nat>, err: Option<nat>)
    requires Collected(calls, requested, run, slots) && forall i :: 0 <= i < |calls| ==> !calls[i].Error?
    ensures |values| == |calls|
    ensures forall i :: 0 <= i < |calls| ==> values[i] == if calls[i].Returns? then calls[i].value else 0
    ensures err == FirstError(calls)
  {
    SameAsSequential(calls, EffectiveCap(requested, |calls|), run);
    values := seq(|slots|, i requires 0 <= i < |slots| => slots[i].value);
    for i := 0 to |slots|
      invariant forall j :: 0 <= j < i ==> calls[j].Returns?
    {
      if slots[i].panicError.Some? {
        OneFirstFailure(calls, i, FirstFailure(calls));
        return values, slots[i].panicError;
      }
    }
    OneFirstFailure(calls, |calls|, FirstFailure(calls));
    return values, None;
  }

  /** AllWithErrorN under any schedule: the lowest-index error of either kind and no values, or every value. */
  method AllWithErrorN(slots: seq<Slot>, ghost calls: seq<Call>, ghost requested: int, ghost run: seq<Event>)
    returns (values: seq<nat>, err: Option<nat>)
    requires Collected(calls, requested, run, slots)
    ensures err == FirstError(calls)
    ensures err.Some? ==> values == []
    ensures err.None? ==> |values| == |calls| && forall i :: 0 <= i < |calls| ==> calls[i] == Returns(values[i])
  {
    SameAsSequential(calls, EffectiveCap(requested, |calls|), run);
    for i := 0 to |slots|
      invariant forall j :: 0 <= j < i ==> calls[j].Returns?
    {
      if slots[i].panicError.Some? {
        OneFirstFailure(calls, i, FirstFailure(calls));
        return [], slots[i].panicError;
      }
      if slots[i].error.Some? {
        OneFirstFailure(calls, i, FirstFailure(calls));
        return [], slots[i].error;
      }
    }
    OneFirstFailure(calls, |calls|, FirstFailure(calls));
    return seq(|slots|, i requires 0 <= i < |slots| => slots[i].value), None;
  }

  /** TryForEach's own cap: not clamped to the number of items. */
  function TryForEachCap(requested: int, n: nat): (cap: nat)
    ensures n > 0 ==> cap > 0
    ensures requested > 0 ==> cap == requested
  {
    if requested <= 0 then n else requested
  }

  /** TryForEach has one slice: a worker writes what its function returned, or the panic it recovered. */
  function TryError(s: Slot): Option<nat> {
    if s.panicError.Some? then s.panicError else s.error
  }

  /** Under every schedule TryForEach answers each item's own error, and none for an item that returned. */
  lemma TryForEachAnswers(calls: seq<Call>, requested: int, run: seq<Event>, i: nat)
    requires i < |calls| && Legal(calls, TryForEachCap(requested, |calls|), Init(|calls|), run)
    requires Complete(Exec(calls, Init(|calls|), run))
    ensures TryError(Exec(calls, Init(|calls|), run).slots[i]) ==
      if calls[i].Returns? then None else Some(calls[i].error)
  {
    SameAsSequential(calls, TryForEachCap(requested, |calls|), run);
  }
}
