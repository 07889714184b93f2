/** The login throttle's counter (auth_throttle.go): an attempt is counted with separate atomic store operations
    (add-if-absent, increment, put), and any number of attempts interleave. One key's bucket is modelled: the
    operations on different keys do not touch each other. */
module ThrottleCounter {
  import opened Options

  type Time = nat

  /** How long a window lasts: the throttler falls back to a default for any other setting. */
  type Span = d: nat | d > 0 witness 1

  /** A key in the cache store: absent, or a count with the instant it expires, or none. */
  datatype Bucket = Absent | Present(count: nat, expiry: Option<Time>)

  predicate Live(b: Bucket, now: Time) {
    b.Present? && (b.expiry.None? || now < b.expiry.value)
  }

  predicate NeverExpires(b: Bucket) {
    b.Present? && b.expiry.None?
  }

  function AfterAdd(b: Bucket, ttl: Span, now: Time): Bucket {
    if Live(b, now) then b else Present(1, Some(now + ttl))
  }

  /** Incrementing a key that is absent or expired recreates it with no expiry. */
  function AfterIncrement(b: Bucket, now: Time): Bucket {
    if Live(b, now) then b.(count := b.count + 1) else Present(1, None)
  }

  // ---------------------------------------------------------------- interleaved attempts

  datatype Result = Counted(count: nat) | Failed

  datatype Pc = AtAdd | AtIncrement | AtPut | Done(result: Result)

  /** counted lists the calls in the order their counts were taken. stranded is set by a lost write that leaves
      a bucket without an expiry (an increment that recreated the key and reported a failure, or a re-put that did not
      land), until a put lands or the key is forgotten. */
  datatype State = State(decay: Span, clock: Time, bucket: Bucket, calls: seq<Pc>, counted: seq<nat>, stranded: bool)

  datatype Choice = Ok | Fails(landed: bool)

  datatype Event = Tick(elapsed: nat) | Forget | Begin | Step(call: nat, choice: Choice)

  predicate Enabled(s: State, e: Event) {
    e.Step? ==> e.call < |s.calls|
  }

  function At(s: State, call: nat, pc: Pc): State
    requires call < |s.calls|
  {
    s.(calls := s.calls[call := pc])
  }

  function StepAdd(s: State, call: nat, choice: Choice): State
    requires call < |s.calls|
  {
    var added := AfterAdd(s.bucket, s.decay, s.clock);
    if choice.Fails? then At(s, call, AtIncrement).(bucket := if choice.landed then added else s.bucket)
    else if Live(s.bucket, s.clock) then At(s, call, AtIncrement)
    else At(s, call, Done(Counted(1))).(bucket := added, counted := s.counted + [call])
  }

  function StepIncrement(s: State, call: nat, choice: Choice): State
    requires call < |s.calls|
  {
    var next := AfterIncrement(s.bucket, s.clock);
    if choice.Fails? then
      At(s, call, Done(Failed)).(bucket := if choice.landed then next else s.bucket,
                                 stranded := s.stranded || (choice.landed && !Live(s.bucket, s.clock)))
    else At(s, call, if next.count == 1 then AtPut else Done(Counted(next.count)))
         .(bucket := next, counted := s.counted + [call])
  }

  /** The re-put of a count of 1 the add did not create. Its error is ignored. */
  function StepPut(s: State, call: nat, choice: Choice): State
    requires call < |s.calls|
  {
    var put := Present(1, Some(s.clock + s.decay));
    if choice.Fails? && !choice.landed then
      At(s, call, Done(Counted(1))).(stranded := s.stranded || NeverExpires(s.bucket))
    else At(s, call, Done(Counted(1))).(bucket := put, stranded := false)
  }

  function Apply(s: State, e: Event): State
    requires Enabled(s, e)
  {
    match e
    case Tick(elapsed) => s.(clock := s.clock + elapsed)
    case Forget => s.(bucket := Absent, stranded := false)
    case Begin => s.(calls := s.calls + [AtAdd])
    case Step(call, choice) =>
      match s.calls[call]
      case AtAdd => StepAdd(s, call, choice)
      case AtIncrement => StepIncrement(s, call, choice)
      case AtPut => StepPut(s, call, choice)
      case Done(_) => s
  }

  predicate Legal(s: State, run: seq<Event>)
    decreases |run|
  {
    run == [] || (Enabled(s, run[0]) && Legal(Apply(s, run[0]), run[1..]))
  }

  function Exec(s: State, run: seq<Event>): State
    requires Legal(s, run)
    decreases |run|
  {
    if run == [] then s else Exec(Apply(s, run[0]), run[1..])
  }

  function Initial(decay: Span, clock: Time): State {
    State(decay, clock, Absent, [], [], false)
  }

  predicate Quiet(s: State) {
    forall i :: 0 <= i < |s.calls| ==> s.calls[i].Done?
  }

  // ---------------------------------------------------------------- no bucket stays without an expiry

  predicate AboutToPut(s: State) {
    exists i :: 0 <= i < |s.calls| && s.calls[i].AtPut?
  }

  /** A bucket without an expiry has a caller about to re-put it, or is stranded; only such a bucket is stranded; and
      one with an expiry lapses within the decay. */
  ghost predicate ExpiryInv(s: State) {
    && (NeverExpires(s.bucket) ==> s.stranded || AboutToPut(s))
    && (s.stranded ==> NeverExpires(s.bucket))
    && (s.bucket.Present? ==> s.bucket.count > 0)
    && (s.bucket.Present? && s.bucket.expiry.Some? ==> s.bucket.expiry.value <= s.clock + s.decay)
  }

  lemma ExpiryKept(s: State, e: Event)
    requires ExpiryInv(s) && Enabled(s, e)
    ensures ExpiryInv(Apply(s, e)) && Apply(s, e).decay == s.decay
  {
    var s' := Apply(s, e);
    if NeverExpires(s'.bucket) && !s'.stranded {
      if e.Step? && s.calls[e.call].AtIncrement? && !Live(s.bucket, s.clock) && e.choice.Ok? {
        assert s'.calls[e.call].AtPut?;
      } else {
        var i :| 0 <= i < |s.calls| && s.calls[i].AtPut?;
        assert s'.calls[i].AtPut?;
      }
    }
  }

  lemma {:induction false} ExpiryKeptOverRun(s: State, run: seq<Event>)
    requires ExpiryInv(s) && Legal(s, run)
    ensures ExpiryInv(Exec(s, run)) && Exec(s, run).decay == s.decay
    decreases |run|
  {
    if run != [] {
      ExpiryKept(s, run[0]);
      ExpiryKeptOverRun(Apply(s, run[0]), run[1..]);
    }
  }

  /** In every interleaving with expiry and RecordSuccess, a key without an expiry that no lost write stranded exists
      only while a caller is between its increment and its re-put. Once all calls are done, the key is without an expiry
      exactly when it is stranded, and if it is not it denies nobody after one more decay window. */
  lemma NoBucketStaysWithoutExpiry(decay: Span, clock: Time, run: seq<Event>)
    requires Legal(Initial(decay, clock), run)
    ensures var s := Exec(Initial(decay, clock), run);
      && (NeverExpires(s.bucket) && !s.stranded ==> AboutToPut(s))
      && (Quiet(s) ==> (NeverExpires(s.bucket) <==> s.stranded))
      && (Quiet(s) && !s.stranded ==> !Live(s.bucket, s.clock + decay))
  {
    ExpiryKeptOverRun(Initial(decay, clock), run);
  }

  /** The run never forgets the key: no RecordSuccess clears it. */
  predicate NeverForgets(run: seq<Event>) {
    forall i :: 0 <= i < |run| ==> !run[i].Forget?
  }

  /** A bucket without an expiry and with nobody about to re-put it stays so through every run that does not forget the
      key, however much later and whatever attempts follow, and its count never falls. */
  lemma {:induction false} StrandedNeverLapses(s: State, run: seq<Event>)
    requires NeverExpires(s.bucket) && s.bucket.count > 0 && !AboutToPut(s)
    requires Legal(s, run) && NeverForgets(run)
    ensures var t := Exec(s, run);
      NeverExpires(t.bucket) && t.bucket.count >= s.bucket.count && !AboutToPut(t) && Live(t.bucket, t.clock)
    decreases |run|
  {
    if run != [] {
      assert !run[0].Forget?;
      var s' := Apply(s, run[0]);
      assert forall i :: 0 <= i < |s'.calls| && i < |s.calls| && s'.calls[i].AtPut? ==> s.calls[i].AtPut?;
      StrandedNeverLapses(s', run[1..]);
    }
  }

  /** e, then rest. */
  lemma Then(s: State, e: Event, s': State, rest: seq<Event>)
    requires Enabled(s, e) && Apply(s, e) == s' && Legal(s', rest)
    ensures Legal(s, [e] + rest) && Exec(s, [e] + rest) == Exec(s', rest)
  {
    assert ([e] + rest)[1..] == rest;
  }

  /** Losing one increment's reply is enough: the key expired between a call's add and its increment, and the increment
      landed but reported a failure. The bucket it recreated never lapses again, whatever follows short of a Forget. */
  lemma LostIncrementNeverLapses(decay: Span, clock: Time) returns (run: seq<Event>)
    ensures Legal(Initial(decay, clock), run)
    ensures var s := Exec(Initial(decay, clock), run);
      && Quiet(s) && s.stranded
      && forall more | Legal(s, more) && NeverForgets(more) ::
           NeverExpires(Exec(s, more).bucket) && Live(Exec(s, more).bucket, Exec(s, more).clock)
  {
    var first := Present(1, Some(clock + decay));
    var s1 := State(decay, clock, Absent, [AtAdd], [], false);
    var s2 := State(decay, clock, Absent, [AtAdd, AtAdd], [], false);
    var s3 := State(decay, clock, first, [Done(Counted(1)), AtAdd], [0], false);
    var s4 := State(decay, clock, first, [Done(Counted(1)), AtIncrement], [0], false);
    var s5 := State(decay, clock + decay, first, [Done(Counted(1)), AtIncrement], [0], false);
    var s6 := State(decay, clock + decay, Present(1, None), [Done(Counted(1)), Done(Failed)], [0], true);
    run := [];
    Then(s5, Step(1, Fails(true)), s6, run); run := [Step(1, Fails(true))] + run;
    Then(s4, Tick(decay), s5, run); run := [Tick(decay)] + run;
    Then(s3, Step(1, Ok), s4, run); run := [Step(1, Ok)] + run;
    Then(s2, Step(0, Ok), s3, run); run := [Step(0, Ok)] + run;
    Then(s1, Begin, s2, run); run := [Begin] + run;
    Then(Initial(decay, clock), Begin, s1, run); run := [Begin] + run;
    forall more | Legal(s6, more) && NeverForgets(more)
      ensures NeverExpires(Exec(s6, more).bucket) && Live(Exec(s6, more).bucket, Exec(s6, more).clock)
    {
      StrandedNeverLapses(s6, more);
    }
  }

  /** After a RecordSuccess, or once the window is over, the next call to reach its add counts 1 and opens a new
      window of the full decay. */
  lemma NewWindowOpens(s: State, call: nat)
    requires call < |s.calls| && s.calls[call].AtAdd?
    ensures var t := Apply(Apply(s, Forget), Step(call, Ok));
      t.calls[call] == Done(Counted(1)) && t.bucket == Present(1, Some(s.clock + s.decay)) && !t.stranded
    ensures !Live(s.bucket, s.clock) ==>
      var t := Apply(s, Step(call, Ok));
      t.calls[call] == Done(Counted(1)) && t.bucket == Present(1, Some(s.clock + s.decay))
  {
  }

  /** Inside a window a call that finds the key live counts one more than the key holds, and leaves its deadline. */
  lemma LiveKeyCountsOn(s: State, call: nat)
    requires call < |s.calls| && s.calls[call].AtAdd? && Live(s.bucket, s.clock) && s.bucket.count > 0
    ensures var t := Apply(Apply(s, Step(call, Ok)), Step(call, Ok));
      && t.calls[call] == Done(Counted(s.bucket.count + 1))
      && t.bucket == Present(s.bucket.count + 1, s.bucket.expiry)
  {
  }

  /** An add that failed sends the call to the increment, which counts one more than the window holds, and one more
      again when the add landed in an empty window all the same. */
  lemma FailedAddIsCountedOn(s: State, call: nat, landed: bool)
    requires call < |s.calls| && s.calls[call].AtAdd?
    ensures var t := Apply(s, Step(call, Fails(landed)));
      var u := Apply(t, Step(call, Ok));
      && t.calls[call].AtIncrement?
      && (Live(s.bucket, s.clock) || !landed ==> t.bucket == s.bucket)
      && (Live(s.bucket, s.clock) ==> u.bucket == Present(s.bucket.count + 1, s.bucket.expiry))
      && (!Live(s.bucket, s.clock) && landed ==>
            u.bucket.Present? && u.bucket.count == 2 && u.calls[call] == Done(Counted(2)))
      && (!Live(s.bucket, s.clock) && !landed ==> u.bucket == Present(1, None) && u.calls[call].AtPut?)
  {
  }

  // ---------------------------------------------------------------- counts inside one window

  /** Inside one window the store answers every operation, and the key neither expires nor is forgotten. */
  predicate InWindow(s: State, run: seq<Event>)
    requires Legal(s, run)
    decreases |run|
  {
    run == [] ||
    (&& !run[0].Forget? && (run[0].Step? ==> run[0].choice.Ok?)
     && (Live(s.bucket, s.clock) ==> Live(Apply(s, run[0]).bucket, Apply(s, run[0]).clock))
     && InWindow(Apply(s, run[0]), run[1..]))
  }

  predicate Distinct(s: seq<nat>) {
    forall i, j :: 0 <= i < j < |s| ==> s[i] != s[j]
  }

  /** The calls counted so far hold the counts 1, 2, .. in the order they were counted, and the bucket holds the
      last of them; every other call is still on its way to being counted. */
  ghost predicate WindowInv(s: State) {
    && s.decay > 0
    && Distinct(s.counted)
    && (forall k :: 0 <= k < |s.counted| ==> s.counted[k] < |s.calls| && s.calls[s.counted[k]] == Done(Counted(k + 1)))
    && (forall i :: 0 <= i < |s.calls| && i !in s.counted ==> s.calls[i].AtAdd? || s.calls[i].AtIncrement?)
    && (if s.counted == [] then !Live(s.bucket, s.clock)
        else Live(s.bucket, s.clock) && s.bucket.count == |s.counted|)
    && ((exists i :: 0 <= i < |s.calls| && s.calls[i].AtIncrement?) ==> Live(s.bucket, s.clock))
  }

  lemma WindowKept(s: State, e: Event)
    requires WindowInv(s) && Enabled(s, e)
    requires !e.Forget? && (e.Step? ==> e.choice.Ok?)
    requires Live(s.bucket, s.clock) ==> Live(Apply(s, e).bucket, Apply(s, e).clock)
    ensures WindowInv(Apply(s, e))
  {
    var s' := Apply(s, e);
    if e.Step? && s'.counted != s.counted {
      assert s'.counted == s.counted + [e.call];
      assert e.call !in s.counted;
      forall i | 0 <= i < |s'.calls| && i !in s'.counted ensures s'.calls[i].AtAdd? || s'.calls[i].AtIncrement? {
        assert i !in s.counted && i != e.call;
      }
    }
  }

  lemma {:induction false} WindowKeptOverRun(s: State, run: seq<Event>)
    requires WindowInv(s) && Legal(s, run) && InWindow(s, run)
    ensures WindowInv(Exec(s, run))
    decreases |run|
  {
    if run != [] {
      WindowKept(s, run[0]);
      WindowKeptOverRun(Apply(s, run[0]), run[1..]);
    }
  }

  function CountOf(s: State, i: nat): nat
    requires i < |s.calls|
  {
    if s.calls[i].Done? && s.calls[i].result.Counted? then s.calls[i].result.count else 0
  }

  /** The calls Reserve admits at a cap of limit. */
  function Admitted(s: State, limit: nat): set<nat> {
    set i: nat | i < |s.calls| && 1 <= CountOf(s, i) <= limit
  }

  function Elements(s: seq<nat>): set<nat> {
    set x | x in s
  }

  lemma {:induction false} DistinctSize(s: seq<nat>)
    requires Distinct(s)
    ensures |Elements(s)| == |s|
  {
    if s != [] {
      var rest, last := s[..|s|-1], s[|s|-1];
      DistinctSize(rest);
      assert last !in rest;
      assert Elements(s) == Elements(rest) + {last};
    }
  }

  function UpTo(n: nat): (all: set<nat>)
    ensures |all| == n && forall i :: i in all <==> 0 <= i < n
  {
    if n == 0 then {} else UpTo(n - 1) + {n - 1}
  }

  /** Once all calls are done, the order of counting lists every call once. */
  lemma EveryCallCounted(s: State)
    requires WindowInv(s) && Quiet(s)
    ensures |s.counted| == |s.calls| && forall i :: 0 <= i < |s.calls| ==> i in s.counted
  {
    DistinctSize(s.counted);
    assert Elements(s.counted) == UpTo(|s.calls|);
  }

  lemma FirstAdmitted(s: State, limit: nat)
    requires WindowInv(s) && |s.counted| == |s.calls|
    requires forall i :: 0 <= i < |s.calls| ==> i in s.counted
    ensures |Admitted(s, limit)| == if |s.calls| <= limit then |s.calls| else limit
  {
    var m := if |s.calls| <= limit then |s.calls| else limit;
    DistinctSize(s.counted[..m]);
    forall i | i in Admitted(s, limit) ensures i in s.counted[..m] {
      assert i in s.counted;
      assert s.counted[CountOf(s, i) - 1] == i;
    }
    assert Admitted(s, limit) == Elements(s.counted[..m]);
  }

  /** The call that got count c. */
  function CallWith(s: State, c: nat): nat
    requires 1 <= c <= |s.counted|
  {
    s.counted[c - 1]
  }

  /** In any interleaving of Reserve calls on one key inside one window, starting from a key that counts nothing, the
      calls get the counts 1 to N, each once, so exactly min(N, limit) of them are admitted. */
  lemma CountsArePermutation(decay: Span, clock: Time, run: seq<Event>, limit: nat)
    requires decay > 0 && Legal(Initial(decay, clock), run) && InWindow(Initial(decay, clock), run)
    requires Quiet(Exec(Initial(decay, clock), run))
    ensures var s := Exec(Initial(decay, clock), run);
      && |s.counted| == |s.calls|
      && (forall i :: 0 <= i < |s.calls| ==> 1 <= CountOf(s, i) <= |s.calls| && CallWith(s, CountOf(s, i)) == i)
      && (forall c :: 1 <= c <= |s.calls| ==> CallWith(s, c) < |s.calls| && CountOf(s, CallWith(s, c)) == c)
      && |Admitted(s, limit)| == if |s.calls| <= limit then |s.calls| else limit
  {
    WindowKeptOverRun(Initial(decay, clock), run);
    var s := Exec(Initial(decay, clock), run);
    EveryCallCounted(s);
    forall i | 0 <= i < |s.calls| ensures 1 <= CountOf(s, i) <= |s.calls| && CallWith(s, CountOf(s, i)) == i {
      assert i in s.counted;
      var k :| 0 <= k < |s.counted| && s.counted[k] == i;
      assert CountOf(s, i) == k + 1;
    }
    FirstAdmitted(s, limit);
  }
}
