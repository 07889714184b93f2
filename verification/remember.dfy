/** The populate election behind cache.Remember (cache/manager.go, rememberWith): callers that miss race to add a lock
    key, one populates, the others poll and then compute for themselves. Any number of callers of one key interleave;
    each step is one store operation or one callback. */
module Remember {
  import opened Options

  type Value = string

  const LOCK_TTL := 30_000_000_000
  const POLL_ATTEMPTS := 50

  /** The TTL of the populate lock: never longer than the caller's own, and never longer than LOCK_TTL. */
  function LockTTL(ttl: int): (lockTTL: nat)
    ensures 0 < lockTTL <= LOCK_TTL && (ttl > 0 ==> lockTTL <= ttl)
    ensures ttl <= 0 || LOCK_TTL <= ttl ==> lockTTL == LOCK_TTL
  {
    if 0 < ttl < LOCK_TTL then ttl else LOCK_TTL
  }

  datatype Outcome =
    | Hit(value: Value)
    | Computed(value: Value)
    | CallbackError
    | StoreError
    | Cancelled
    | Panicked

  /** until is when the lock the caller won lapses. */
  datatype Pc =
    | Reading
    | Locking
    | Calling(until: nat)
    | Writing(until: nat, value: Value)
    | Unlocking(until: nat, outcome: Outcome)
    | Polling
    | FallingBack
    | Done(outcome: Outcome)

  /** polls counts a loser's reads; computed is what this caller's own callback returned. */
  datatype Caller = Caller(pc: Pc, polls: nat, computed: Option<Value>)

  /** The lock key, with the caller that added it. It is live before expiry. */
  datatype Lock = Lock(owner: nat, expiry: nat)

  /** produced holds what winners' callbacks returned. leaked is set once an unlock failed, or an add landed but
      reported a failure: the key is then left to lapse by itself. */
  datatype State = State(ttl: int, clock: nat, value: Option<Value>, lock: Option<Lock>, callers: seq<Caller>,
                         produced: set<Value>, leaked: bool)

  datatype Choice = Ok | Returns(value: Value) | Fails(landed: bool) | Panics(landed: bool) | Cancels

  datatype Event = Tick(elapsed: nat) | ValueLeaves | Begin | Step(caller: nat, choice: Choice)

  predicate Populating(pc: Pc) {
    pc.Calling? || pc.Writing? || pc.Unlocking?
  }

  function UntilOf(pc: Pc): nat
    requires Populating(pc)
  {
    pc.until
  }

  predicate Held(s: State) {
    s.lock.Some? && s.clock < s.lock.value.expiry
  }

  predicate Enabled(s: State, e: Event) {
    e.Step? ==> e.caller < |s.callers|
  }

  function At(s: State, i: nat, pc: Pc): State
    requires i < |s.callers|
  {
    s.(callers := s.callers[i := s.callers[i].(pc := pc)])
  }

  function StepLocking(s: State, i: nat, choice: Choice): State
    requires i < |s.callers|
  {
    var until := s.clock + LockTTL(s.ttl);
    if choice.Fails? then
      if choice.landed && !Held(s) then At(s, i, Done(StoreError)).(lock := Some(Lock(i, until)), leaked := true)
      else At(s, i, Done(StoreError))
    else if Held(s) then At(s, i, Polling)
    else At(s, i, Calling(until)).(lock := Some(Lock(i, until)))
  }

  /** The populater's callback, its write and its unlock: rememberPopulate. */
  function StepPopulating(s: State, i: nat, choice: Choice): State
    requires i < |s.callers| && Populating(s.callers[i].pc)
  {
    match s.callers[i].pc
    case Calling(until) =>
      if choice.Returns? then
        s.(callers := s.callers[i := s.callers[i].(pc := Writing(until, choice.value), computed := Some(choice.value))],
           produced := s.produced + {choice.value})
      else At(s, i, Unlocking(until, if choice.Panics? then Panicked else CallbackError))
    case Writing(until, value) =>
      if choice.Panics? || choice.Fails? then
        At(s, i, Unlocking(until, if choice.Panics? then Panicked else StoreError))
        .(value := if choice.landed then Some(value) else s.value)
      else At(s, i, Unlocking(until, Computed(value))).(value := Some(value))
    case Unlocking(_, outcome) =>
      if choice.Fails? || choice.Panics? then At(s, i, Done(outcome)).(leaked := true)
      else At(s, i, Done(outcome)).(lock := None)
  }

  /** The loser: at most POLL_ATTEMPTS reads, then its own callback, which stores nothing. */
  function StepLosing(s: State, i: nat, choice: Choice): State
    requires i < |s.callers| && (s.callers[i].pc.Polling? || s.callers[i].pc.FallingBack?)
  {
    var me := s.callers[i];
    if me.pc.Polling? then
      if choice.Cancels? then At(s, i, Done(Cancelled))
      else if me.polls >= POLL_ATTEMPTS then At(s, i, FallingBack)
      else if s.value.Some? then
        s.(callers := s.callers[i := me.(pc := Done(Hit(s.value.value)), polls := me.polls + 1)])
      else s.(callers := s.callers[i := me.(polls := me.polls + 1)])
    else if choice.Returns? then
      s.(callers := s.callers[i := me.(pc := Done(Computed(choice.value)), computed := Some(choice.value))])
    else At(s, i, Done(if choice.Panics? then Panicked else CallbackError))
  }

  function Apply(s: State, e: Event): State
    requires Enabled(s, e)
  {
    match e
    case Tick(elapsed) => s.(clock := s.clock + elapsed)
    case ValueLeaves => s.(value := None)
    case Begin => s.(callers := s.callers + [Caller(Reading, 0, None)])
    case Step(i, choice) =>
      var pc := s.callers[i].pc;
      if pc.Reading? then At(s, i, if s.value.Some? then Done(Hit(s.value.value)) else Locking)
      else if pc.Locking? then StepLocking(s, i, choice)
      else if Populating(pc) then StepPopulating(s, i, choice)
      else if pc.Done? then s
      else StepLosing(s, i, choice)
  }

  function Initial(ttl: int): State {
    State(ttl, 0, None, None, [], {}, false)
  }

  // ---------------------------------------------------------------- runs, and locks that lapse

  predicate Legal(s: State, run: seq<Event>)
    decreases |run|
  {
    run == [] || (Enabled(s, run[0]) && Legal(Apply(s, run[0]), run[1..]))
  }

  function Exec(s: State, run: seq<Event>): State
    requires Legal(s, run)
    decreases |run|
  {
    if run == [] then s else Exec(Apply(s, run[0]), run[1..])
  }

  /** Every caller that is populating still has its lock's time. */
  predicate Timely(s: State) {
    forall i :: 0 <= i < |s.callers| && Populating(s.callers[i].pc) ==> s.clock < UntilOf(s.callers[i].pc)
  }

  /** No populate lock lapses while its winner populates, at any point of the run. */
  predicate NoLapse(s: State, run: seq<Event>)
    requires Legal(s, run)
    decreases |run|
  {
    Timely(s) && (run == [] || NoLapse(Apply(s, run[0]), run[1..]))
  }

  // ---------------------------------------------------------------- what is stored and returned

  /** Only what a winner's callback returned is stored or about to be; every answer is a callback's result, and a
      caller's own callback ran at most once; a loser polls no more than the cap. */
  ghost predicate ValueInv(s: State) {
    && (s.value.Some? ==> s.value.value in s.produced)
    && (forall i :: 0 <= i < |s.callers| ==> CallerInv(s.produced, s.callers[i]))
  }

  ghost predicate CallerInv(produced: set<Value>, c: Caller) {
    && c.polls <= POLL_ATTEMPTS
    && (!c.pc.Polling? && !c.pc.FallingBack? && !c.pc.Done? ==> c.polls == 0)
    && (c.pc.FallingBack? ==> c.polls == POLL_ATTEMPTS)
    && (c.computed.Some? && c.polls > 0 ==> c.polls == POLL_ATTEMPTS && c.pc.Done?)
    && (c.pc.Reading? || c.pc.Locking? || c.pc.Calling? || c.pc.Polling? || c.pc.FallingBack? ==> c.computed.None?)
    && (c.pc.Writing? ==> c.computed == Some(c.pc.value) && c.pc.value in produced)
    && (c.pc.Unlocking? || c.pc.Done? ==>
          match c.pc.outcome
          case Hit(v) => v in produced && c.computed.None?
          case Computed(v) => c.computed == Some(v)
          case _ => true)
  }

  lemma PopulatingKept(s: State, i: nat, choice: Choice)
    requires i < |s.callers| && Populating(s.callers[i].pc) && CallerInv(s.produced, s.callers[i])
    ensures var s' := StepPopulating(s, i, choice);
      && CallerInv(s'.produced, s'.callers[i]) && s.produced <= s'.produced
      && (s'.value == s.value || (s.callers[i].pc.Writing? && s'.value == Some(s.callers[i].pc.value)))
  {}

  lemma LosingKept(s: State, i: nat, choice: Choice)
    requires s.value.Some? ==> s.value.value in s.produced
    requires i < |s.callers| && (s.callers[i].pc.Polling? || s.callers[i].pc.FallingBack?)
    requires CallerInv(s.produced, s.callers[i])
    ensures CallerInv(s.produced, StepLosing(s, i, choice).callers[i])
  {}

  lemma OthersKept(s: State, s': State, i: nat)
    requires i < |s.callers| && (forall k :: 0 <= k < |s.callers| ==> CallerInv(s.produced, s.callers[k]))
    requires s.produced <= s'.produced && |s'.callers| == |s.callers| && CallerInv(s'.produced, s'.callers[i])
    requires forall k :: 0 <= k < |s.callers| && k != i ==> s'.callers[k] == s.callers[k]
    ensures forall k :: 0 <= k < |s'.callers| ==> CallerInv(s'.produced, s'.callers[k])
  {}

  lemma CallerKept(s: State, i: nat, choice: Choice)
    requires s.value.Some? ==> s.value.value in s.produced
    requires i < |s.callers| && CallerInv(s.produced, s.callers[i])
    ensures var s' := Apply(s, Step(i, choice));
      && s.produced <= s'.produced && |s'.callers| == |s.callers| && CallerInv(s'.produced, s'.callers[i])
      && (s'.value.Some? ==> s'.value.value in s'.produced)
  {
    var pc := s.callers[i].pc;
    if Populating(pc) {
      PopulatingKept(s, i, choice);
    } else if pc.Polling? || pc.FallingBack? {
      LosingKept(s, i, choice);
    }
  }

  lemma ValueKept(s: State, e: Event)
    requires ValueInv(s) && Enabled(s, e)
    ensures ValueInv(Apply(s, e))
  {
    if e.Step? {
      CallerKept(s, e.caller, e.choice);
      OthersKept(s, Apply(s, e), e.caller);
    }
  }

  lemma {:induction false} ValueKeptOverRun(s: State, run: seq<Event>)
    requires ValueInv(s) && Legal(s, run)
    ensures ValueInv(Exec(s, run))
    decreases |run|
  {
    if run != [] {
      ValueKept(s, run[0]);
      ValueKeptOverRun(Apply(s, run[0]), run[1..]);
    }
  }

  /** In every run, locks lapsing or not: the value slot holds only what a winner's callback returned without an
      error, every value a caller got is such a value or its own callback's, and a loser reads at most 50 times before
      it computes for itself. */
  lemma OnlyResultsStored(ttl: int, run: seq<Event>)
    requires Legal(Initial(ttl), run)
    ensures var s := Exec(Initial(ttl), run);
      && (s.value.Some? ==> s.value.value in s.produced)
      && (forall i :: 0 <= i < |s.callers| && s.callers[i].pc.Done? ==>
            match s.callers[i].pc.outcome
            case Hit(v) => v in s.produced
            case Computed(v) => s.callers[i].computed == Some(v)
            case _ => true)
      && (forall i :: 0 <= i < |s.callers| ==> s.callers[i].polls <= POLL_ATTEMPTS)
      && (forall i :: 0 <= i < |s.callers| && s.callers[i].polls > 0 && s.callers[i].computed.Some? ==>
            s.callers[i].polls == POLL_ATTEMPTS)
  {
    ValueKeptOverRun(Initial(ttl), run);
    var s := Exec(Initial(ttl), run);
    assert forall i :: 0 <= i < |s.callers| ==> CallerInv(s.produced, s.callers[i]);
  }

  /** Only the write of a populater changes what is stored, and it stores what its callback returned. */
  lemma OnlyPopulatersStore(s: State, i: nat, choice: Choice)
    requires ValueInv(s) && i < |s.callers|
    requires Apply(s, Step(i, choice)).value != s.value
    ensures s.callers[i].pc.Writing? && Apply(s, Step(i, choice)).value == s.callers[i].computed
  {
    assert CallerInv(s.produced, s.callers[i]);
  }

  // ---------------------------------------------------------------- a result is stored and served

  /** The store neither drops the value nor is written to by a populater, at any point of the run. */
  predicate Undisturbed(s: State, run: seq<Event>)
    requires Legal(s, run)
    decreases |run|
  {
    run == []
    || (&& !run[0].ValueLeaves?
        && (run[0].Step? ==> !s.callers[run[0].caller].pc.Writing?)
        && Undisturbed(Apply(s, run[0]), run[1..]))
  }

  lemma {:induction false} ValueStays(s: State, run: seq<Event>)
    requires Legal(s, run) && Undisturbed(s, run)
    ensures Exec(s, run).value == s.value
    decreases |run|
  {
    if run != [] {
      ValueStays(Apply(s, run[0]), run[1..]);
    }
  }

  /** The step succeeds: it neither fails nor panics. */
  predicate Succeeds(choice: Choice) {
    !choice.Fails? && !choice.Panics?
  }

  /** The callback of caller i returned v and its write succeeded. */
  function Populated(s: State, i: nat, v: Value, choice: Choice): State
    requires i < |s.callers| && s.callers[i].pc.Calling?
  {
    Apply(Apply(s, Step(i, Returns(v))), Step(i, choice))
  }

  /** A winner whose callback returned a value and whose write succeeded leaves it in the slot, whatever the others do,
      until the store drops it or another populater writes. A caller that begins meanwhile, or is waiting and reads
      again, is answered with it, and its own callback is not called. */
  lemma ResultIsServed(s: State, i: nat, v: Value, choice: Choice, run: seq<Event>, j: nat, next: Choice)
    requires i < |s.callers| && s.callers[i].pc.Calling? && Succeeds(choice)
    requires Legal(Populated(s, i, v, choice), run) && Undisturbed(Populated(s, i, v, choice), run)
    requires var t := Exec(Populated(s, i, v, choice), run);
      j < |t.callers| && CanRead(t.callers[j], next)
    ensures var t := Exec(Populated(s, i, v, choice), run);
      && t.value == Some(v)
      && Apply(t, Step(j, next)).callers[j].pc == Done(Hit(v))
      && Apply(t, Step(j, next)).callers[j].computed == t.callers[j].computed
  {
    ValueStays(Populated(s, i, v, choice), run);
  }

  /** The caller's next step reads the slot: its first one, or one of its polls unless it is cancelled. */
  predicate CanRead(c: Caller, choice: Choice) {
    c.pc.Reading? || (c.pc.Polling? && c.polls < POLL_ATTEMPTS && !choice.Cancels?)
  }

  /** The winner itself answers what it stored, once it has unlocked. */
  lemma WinnerAnswersItsResult(s: State, i: nat, v: Value, choice: Choice, unlock: Choice)
    requires i < |s.callers| && s.callers[i].pc.Calling? && Succeeds(choice)
    ensures Apply(Populated(s, i, v, choice), Step(i, unlock)).callers[i].pc == Done(Computed(v))
  {
  }

  /** An answered caller does nothing more: its callback is never called afterwards. */
  lemma {:induction false} AnsweredStays(s: State, run: seq<Event>, j: nat)
    requires Legal(s, run) && j < |s.callers| && s.callers[j].pc.Done?
    ensures j < |Exec(s, run).callers| && Exec(s, run).callers[j] == s.callers[j]
    decreases |run|
  {
    if run != [] {
      AnsweredStays(Apply(s, run[0]), run[1..], j);
    }
  }

  /** A caller that misses becomes a loser exactly when the lock is held at that instant; otherwise it wins, unless the
      store fails. */
  lemma LosesOnlyToAHolder(s: State, i: nat, choice: Choice)
    requires i < |s.callers| && s.callers[i].pc.Locking?
    ensures var pc := Apply(s, Step(i, choice)).callers[i].pc;
      && (pc.Polling? <==> !choice.Fails? && Held(s))
      && (pc.Calling? <==> !choice.Fails? && !Held(s))
      && (pc.Calling? ==> Apply(s, Step(i, choice)).lock == Some(Lock(i, s.clock + LockTTL(s.ttl))))
      && (choice.Fails? ==>
            && pc == Done(StoreError)
            && Apply(s, Step(i, choice)).lock ==
                 if choice.landed && !Held(s) then Some(Lock(i, s.clock + LockTTL(s.ttl))) else s.lock)
  {
  }

  /** A caller with a value in the slot never goes for the lock, and one without always does. */
  lemma MissesOnlyAnEmptySlot(s: State, i: nat, choice: Choice)
    requires i < |s.callers| && s.callers[i].pc.Reading?
    ensures Apply(s, Step(i, choice)).callers[i].pc.Locking? <==> s.value.None?
  {
  }

  /** What a winner answers, and what is in the slot, when its callback or its write does not succeed: an error or a
      panic of the callback stores nothing, and a write that reports a failure stores the value only if it landed. */
  lemma FailureIsAnswered(s: State, i: nat, choice: Choice, unlock: Choice)
    requires i < |s.callers| && (s.callers[i].pc.Calling? || s.callers[i].pc.Writing?)
    requires if s.callers[i].pc.Calling? then !choice.Returns? else !Succeeds(choice)
    ensures var t := Apply(s, Step(i, choice));
      && t.callers[i].computed == s.callers[i].computed
      && Apply(t, Step(i, unlock)).callers[i].pc ==
           Done(if choice.Panics? then Panicked else if s.callers[i].pc.Calling? then CallbackError else StoreError)
      && (s.callers[i].pc.Calling? ==> t.value == s.value)
      && (s.callers[i].pc.Writing? ==> t.value == if choice.landed then Some(s.callers[i].pc.value) else s.value)
  {
  }

  /** What a loser answers when it is cancelled between two reads, and when its own callback fails: and it leaves the
      slot and the lock alone whatever it does. */
  lemma LoserFailureIsAnswered(s: State, i: nat, choice: Choice)
    requires i < |s.callers| && (s.callers[i].pc.Polling? || s.callers[i].pc.FallingBack?)
    ensures var t, pc := Apply(s, Step(i, choice)), s.callers[i].pc;
      && t.value == s.value && t.lock == s.lock
      && (pc.Polling? ==> (t.callers[i].pc == Done(Cancelled) <==> choice.Cancels?))
      && (pc.FallingBack? && choice.Panics? ==> t.callers[i].pc == Done(Panicked))
      && (pc.FallingBack? && !choice.Panics? && !choice.Returns? ==> t.callers[i].pc == Done(CallbackError))
  {
  }

  /** The winner's last step frees the lock exactly when its unlock succeeds; otherwise the lock is left to lapse. */
  lemma UnlockFrees(s: State, i: nat, choice: Choice)
    requires i < |s.callers| && s.callers[i].pc.Unlocking?
    ensures var t := Apply(s, Step(i, choice));
      && t.lock == (if Succeeds(choice) then None else s.lock) && t.value == s.value
      && t.leaked == (s.leaked || !Succeeds(choice))
  {
  }

  /** Every unlock of the run succeeds, and no add of the lock lands and reports a failure. */
  predicate LocksWork(s: State, run: seq<Event>)
    requires Legal(s, run)
    decreases |run|
  {
    run == []
    || (&& (run[0].Step? && s.callers[run[0].caller].pc.Unlocking? ==> Succeeds(run[0].choice))
        && (run[0].Step? && s.callers[run[0].caller].pc.Locking? ==> !(run[0].choice.Fails? && run[0].choice.landed))
        && LocksWork(Apply(s, run[0]), run[1..]))
  }

  lemma {:induction false} NothingLeaks(s: State, run: seq<Event>)
    requires Legal(s, run) && LocksWork(s, run) && !s.leaked
    ensures !Exec(s, run).leaked
    decreases |run|
  {
    if run != [] {
      NothingLeaks(Apply(s, run[0]), run[1..]);
    }
  }

  /** n more steps of caller j. */
  function Steps(j: nat, n: nat): seq<Event> {
    seq(n, i => Step(j, Ok))
  }

  lemma {:induction false} PollsOn(s: State, j: nat, n: nat)
    requires j < |s.callers| && s.callers[j].pc.Polling? && s.callers[j].polls + n == POLL_ATTEMPTS && s.value.None?
    ensures Legal(s, Steps(j, n + 1))
    ensures Exec(s, Steps(j, n + 1)) ==
      s.(callers := s.callers[j := s.callers[j].(pc := FallingBack, polls := POLL_ATTEMPTS)])
    decreases n
  {
    var t := Apply(s, Step(j, Ok));
    assert Steps(j, n + 1) == [Step(j, Ok)] + Steps(j, n);
    if n == 0 {
      assert Steps(j, 0) == [];
      Then(s, Step(j, Ok), t, []);
    } else {
      PollsOn(t, j, n - 1);
      Then(s, Step(j, Ok), t, Steps(j, n));
    }
  }

  /** A loser does not wait for ever: with the slot empty all along it reads fifty times, one step later gives up, and
      then answers what its own callback returns. It stores nothing and touches no lock. */
  lemma LoserFallsBack(s: State, j: nat, v: Value)
    requires j < |s.callers| && s.callers[j].pc.Polling? && s.callers[j].polls <= POLL_ATTEMPTS && s.value.None?
    ensures var n := POLL_ATTEMPTS - s.callers[j].polls + 1;
      Legal(s, Steps(j, n)) && j < |Exec(s, Steps(j, n)).callers|
    ensures var t := Apply(Exec(s, Steps(j, POLL_ATTEMPTS - s.callers[j].polls + 1)), Step(j, Returns(v)));
      && t.callers[j] == Caller(Done(Computed(v)), POLL_ATTEMPTS, Some(v))
      && t.value == None && t.lock == s.lock && t.clock == s.clock
  {
    PollsOn(s, j, POLL_ATTEMPTS - s.callers[j].polls);
  }

  // ---------------------------------------------------------------- winners do not overlap

  /** A populating caller holds the lock, with the expiry it won; and a lock belongs to a populating caller unless one
      was leaked. */
  ghost predicate LockInv(s: State) {
    && (forall i :: 0 <= i < |s.callers| && Populating(s.callers[i].pc) ==>
          s.lock == Some(Lock(i, UntilOf(s.callers[i].pc))))
    && (s.lock.Some? && !s.leaked ==> s.lock.value.owner < |s.callers| && Populating(s.callers[s.lock.value.owner].pc))
  }

  lemma LockKept(s: State, e: Event)
    requires LockInv(s) && Timely(s) && Enabled(s, e)
    ensures LockInv(Apply(s, e))
  {
    if e.Step? && s.callers[e.caller].pc.Locking? {
      LockingKept(s, e.caller, e.choice);
    } else if e.Step? && Populating(s.callers[e.caller].pc) {
      UnlockingKept(s, e.caller, e.choice);
    }
  }

  lemma LockingKept(s: State, i: nat, choice: Choice)
    requires LockInv(s) && Timely(s) && i < |s.callers| && s.callers[i].pc.Locking?
    ensures LockInv(StepLocking(s, i, choice))
  {}

  lemma UnlockingKept(s: State, i: nat, choice: Choice)
    requires LockInv(s) && i < |s.callers| && Populating(s.callers[i].pc)
    ensures LockInv(StepPopulating(s, i, choice))
  {}

  lemma {:induction false} LockKeptOverRun(s: State, run: seq<Event>)
    requires LockInv(s) && Legal(s, run) && NoLapse(s, run)
    ensures LockInv(Exec(s, run)) && Timely(Exec(s, run))
    decreases |run|
  {
    if run != [] {
      LockKept(s, run[0]);
      LockKeptOverRun(Apply(s, run[0]), run[1..]);
    }
  }

  /** If no populate lock lapses while its winner populates, the callback-and-write phases of two winners never overlap,
      and once nobody populates the lock is free, whether the winner ended well, with an error or in a panic. */
  lemma WinnersNeverOverlap(ttl: int, run: seq<Event>, i: nat, j: nat)
    requires Legal(Initial(ttl), run) && NoLapse(Initial(ttl), run)
    ensures var s := Exec(Initial(ttl), run);
      && (i < |s.callers| && j < |s.callers| && Populating(s.callers[i].pc) && Populating(s.callers[j].pc) ==> i == j)
      && ((forall k :: 0 <= k < |s.callers| ==> !Populating(s.callers[k].pc)) && LocksWork(Initial(ttl), run) ==>
            s.lock == None)
  {
    LockKeptOverRun(Initial(ttl), run);
    if LocksWork(Initial(ttl), run) {
      NothingLeaks(Initial(ttl), run);
    }
  }

  /** A winner leaves its populate phase only through its unlock, whatever its callback and its write did. */
  lemma WinnerAlwaysUnlocks(s: State, i: nat, choice: Choice)
    requires i < |s.callers| && Populating(s.callers[i].pc)
    ensures var s' := Apply(s, Step(i, choice));
      !Populating(s'.callers[i].pc) ==> s.callers[i].pc.Unlocking? && (s'.lock == None || s'.leaked)
  {}

  lemma Then(s: State, e: Event, s': State, rest: seq<Event>)
    requires Enabled(s, e) && Apply(s, e) == s' && Legal(s', rest)
    ensures Legal(s, [e] + rest) && Exec(s, [e] + rest) == Exec(s', rest)
  {
    assert ([e] + rest)[1..] == rest;
  }

  /** Without the hypothesis the guarantee goes: whatever the state, once the lock of a populating caller has lapsed
      there is a continuation in which that caller still stands where it stood and a new one populates beside it. It
      takes no time, unless somebody holds the lock by then; and then it waits for that lock alone. */
  lemma LapseAdmitsAnother(s: State, i: nat) returns (run: seq<Event>)
    requires i < |s.callers| && Populating(s.callers[i].pc) && UntilOf(s.callers[i].pc) <= s.clock
    ensures Legal(s, run)
    ensures var t := Exec(s, run);
      && |t.callers| == |s.callers| + 1 && t.callers[..|s.callers|] == s.callers
      && Populating(t.callers[|s.callers|].pc)
      && t.clock == if Held(s) then s.lock.value.expiry else s.clock
  {
    var n, now := |s.callers|, if Held(s) then s.lock.value.expiry else s.clock;
    var until := now + LockTTL(s.ttl);
    var s1 := s.(callers := s.callers + [Caller(Reading, 0, None)]);
    var s2 := s1.(value := None);
    var s3 := s2.(callers := s.callers + [Caller(Locking, 0, None)]);
    var s4 := s3.(clock := now);
    var s5 := s4.(callers := s.callers + [Caller(Calling(until), 0, None)], lock := Some(Lock(n, until)));
    run := [];
    Then(s4, Step(n, Ok), s5, run); run := [Step(n, Ok)] + run;
    Then(s3, Tick(now - s.clock), s4, run); run := [Tick(now - s.clock)] + run;
    Then(s2, Step(n, Ok), s3, run); run := [Step(n, Ok)] + run;
    Then(s1, ValueLeaves, s2, run); run := [ValueLeaves] + run;
    Then(s, Begin, s1, run); run := [Begin] + run;
  }

  /** A lock that lapses mid-populate lets a second winner in beside the first. */
  lemma LapseLetsWinnersOverlap(ttl: int) returns (run: seq<Event>)
    ensures Legal(Initial(ttl), run)
    ensures var s := Exec(Initial(ttl), run);
      |s.callers| == 2 && Populating(s.callers[0].pc) && Populating(s.callers[1].pc)
  {
    var t := LockTTL(ttl);
    var c, r, l := Caller(Calling(t), 0, None), Caller(Reading, 0, None), Caller(Locking, 0, None);
    var s1 := Initial(ttl).(callers := [r]);
    var s2 := s1.(callers := [r, r]);
    var s3 := s2.(callers := [l, r]);
    var s4 := s3.(callers := [l, l]);
    var s5 := s4.(callers := [c, l], lock := Some(Lock(0, t)));
    var s6 := s5.(clock := t);
    var s7 := s6.(callers := [c, Caller(Calling(t + t), 0, None)], lock := Some(Lock(1, t + t)));
    run := [];
    Then(s6, Step(1, Ok), s7, run); run := [Step(1, Ok)] + run;
    Then(s5, Tick(t), s6, run); run := [Tick(t)] + run;
    Then(s4, Step(0, Ok), s5, run); run := [Step(0, Ok)] + run;
    Then(s3, Step(1, Ok), s4, run); run := [Step(1, Ok)] + run;
    Then(s2, Step(0, Ok), s3, run); run := [Step(0, Ok)] + run;
    Then(s1, Begin, s2, run); run := [Begin] + run;
    Then(Initial(ttl), Begin, s1, run); run := [Begin] + run;
  }
}
