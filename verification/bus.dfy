/** Dispatch interleaved with Through and Register (bus/bus.go). Stages, command types, answers and handlers are
    numbers. Each goroutine takes one shared-memory step, or one step of a stage or handler, at a time; a step under
    the read lock needs no writer inside. */
module Bus {
  import opened Options
  import Pipeline

  type Command = Pipeline.Command

  type List = seq<nat>

  /** What a command is handled by: itself, or a registered handler. */
  datatype Target = Itself | Registered(handler: nat)

  /** The chain a Dispatch got hold of; from is the number of the list in force when the Dispatch started. */
  datatype Grip = Grip(from: nat, chain: List)

  datatype Caller =
    // Through
    | AddWant(stages: List)
    | AddHeld(stages: List)
    | AddAppended(stages: List)
    | AddStored
    // Register
    | RegisterWant(kind: nat, handler: nat)
    // Dispatch: the chain is looked up, built if need be, and the handler checked
    | Start(command: Command)
    | Missed(command: Command, from: nat)
    | Checking(command: Command, from: nat)
    | Built(command: Command, grip: Grip)
    | Unlocking(command: Command, grip: Grip)
    | Have(command: Command, grip: Grip)
    | NoHandler(command: Command, grip: Grip)
    // the way in: commands[k] is what stage k was given; the way out: results lists the answers so far, outermost first
    | Inside(grip: Grip, first: Target, commands: seq<Command>)
    | Leaving(grip: Grip, first: Target, used: Option<Target>, commands: seq<Command>, results: seq<nat>)
    // Through or Register returned
    | Over

  /** lists[k] is the middleware list after k invalidations. */
  datatype State = State(
    lock: Option<nat>, middleware: List, cached: Option<List>, handlers: map<nat, nat>, lists: seq<List>,
    callers: seq<Caller>)

  /** What a stage or handler does at its step: it calls the next with a command, of any type, or answers. */
  datatype Say = Pass(command: Command) | Answer(result: nat)

  /** The step of one goroutine. */
  datatype Event = Step(i: nat, say: Say)

  predicate Holds(c: Caller) {
    c.AddHeld? || c.AddAppended? || c.AddStored? || c.Checking? || c.Built? || c.Unlocking?
  }

  predicate NotBegun(c: Caller) {
    c.AddWant? || c.RegisterWant? || c.Start?
  }

  /** The command is at the end of the chain. */
  predicate AtTerminal(c: Caller) {
    c.Inside? && |c.commands| == |c.grip.chain| + 1
  }

  /** The type of the command a Dispatch was called with, and of the one now on its way. */
  function GivenKind(c: Caller): nat
    requires (c.Inside? || c.Leaving?) && c.commands != []
  {
    c.commands[0].kind
  }

  function NowKind(c: Caller): nat
    requires (c.Inside? || c.Leaving?) && c.commands != []
  {
    c.commands[|c.commands| - 1].kind
  }

  /** The command went through every stage. */
  predicate WentThrough(c: Caller) {
    c.Leaving? && |c.commands| == |c.grip.chain| + 1
  }

  /** The Dispatch returned. */
  predicate Returned(c: Caller) {
    c.Leaving? && |c.results| == |c.commands|
  }

  /** The command a Dispatch was called with. */
  function CommandOf(c: Caller): Option<Command> {
    if c.Inside? || c.Leaving? then (if c.commands == [] then None else Some(c.commands[0]))
    else if c.Start? || c.Missed? || c.Checking? || c.Built? || c.Unlocking? || c.Have? || c.NoHandler?
    then Some(c.command)
    else None
  }

  function Init(callers: seq<Caller>): State {
    State(None, [], None, map[], [[]], callers)
  }

  /** resolveHandler: selfHandling are the command types that handle themselves. */
  function Resolve(handlers: map<nat, nat>, selfHandling: set<nat>, kind: nat): Option<Target> {
    if kind in handlers then Some(Registered(handlers[kind])) else if kind in selfHandling then Some(Itself) else None
  }

  /** The step takes or needs the lock: it waits for whoever holds it. */
  predicate NeedsLock(c: Caller) {
    c.AddWant? || c.RegisterWant? || c.Missed? || c.Have? || (AtTerminal(c) && c.grip.chain != [])
  }

  predicate Enabled(s: State, e: Event) {
    && e.i < |s.callers|
    && var c := s.callers[e.i];
       && !c.Over? && !c.NoHandler? && !Returned(c)
       && (NeedsLock(c) ==> s.lock.None?)
       && (AtTerminal(c) || c.Leaving? ==> e.say.Answer?)
  }

  function With(s: State, i: nat, c: Caller): State
    requires i < |s.callers|
  {
    s.(callers := s.callers[i := c])
  }

  /** A step of a stage on the way in, or of the terminal, which resolves a handler live for the command it is given;
      without middleware the handler found first is called. */
  function Enter(selfHandling: set<nat>, handlers: map<nat, nat>, c: Caller, say: Say): Caller
    requires c.Inside?
  {
    if !AtTerminal(c) && say.Pass? then Inside(c.grip, c.first, c.commands + [say.command])
    else
      var used := if !AtTerminal(c) then None else if c.grip.chain == [] then Some(c.first)
                  else Resolve(handlers, selfHandling, NowKind(c));
      Leaving(c.grip, c.first, used, c.commands, [if say.Answer? then say.result else 0])
  }

  function Apply(selfHandling: set<nat>, s: State, e: Event): (t: State)
    requires s.lists != []
    ensures t.lists != []
  {
    if e.i >= |s.callers| then s else
    match s.callers[e.i]
    case AddWant(stages) => With(s.(lock := Some(e.i)), e.i, AddHeld(stages))
    case AddHeld(stages) => With(s.(middleware := s.middleware + stages), e.i, AddAppended(stages))
    case AddAppended(stages) => With(s.(cached := None, lists := s.lists + [s.middleware]), e.i, AddStored)
    case AddStored => With(s.(lock := None), e.i, Over)
    // a second handler for a type is refused
    case RegisterWant(kind, handler) =>
      With(if kind in s.handlers then s else s.(handlers := s.handlers[kind := handler]), e.i, Over)
    case Start(command) =>
      var now := |s.lists| - 1;
      With(s, e.i, if s.cached.Some? then Have(command, Grip(now, s.cached.value))
                   else Missed(command, now))
    case Missed(command, from) => With(s.(lock := Some(e.i)), e.i, Checking(command, from))
    case Checking(command, from) =>
      With(s, e.i, if s.cached.Some? then Unlocking(command, Grip(from, s.cached.value))
                   else Built(command, Grip(from, s.middleware)))
    case Built(command, grip) => With(s.(cached := Some(grip.chain)), e.i, Unlocking(command, grip))
    case Unlocking(command, grip) => With(s.(lock := None), e.i, Have(command, grip))
    case Have(command, grip) =>
      var found := Resolve(s.handlers, selfHandling, command.kind);
      With(s, e.i, if found.None? then NoHandler(command, grip) else Inside(grip, found.value, [command]))
    case Inside(_, _, _) => With(s, e.i, Enter(selfHandling, s.handlers, s.callers[e.i], e.say))
    case Leaving(grip, first, used, commands, results) =>
      if |results| >= |commands| || e.say.Pass? then s
      else With(s, e.i, Leaving(grip, first, used, commands, [e.say.result] + results))
    case NoHandler(_, _) => s
    case Over => s
  }

  ghost predicate Legal(selfHandling: set<nat>, s: State, run: seq<Event>)
    requires s.lists != []
    decreases |run|
  {
    run == [] || (Enabled(s, run[0]) && Legal(selfHandling, Apply(selfHandling, s, run[0]), run[1..]))
  }

  function Exec(selfHandling: set<nat>, s: State, run: seq<Event>): State
    requires s.lists != []
    decreases |run|
  {
    if run == [] then s else Exec(selfHandling, Apply(selfHandling, s, run[0]), run[1..])
  }

  // ---------------------------------------------------------------- what every step keeps

  /** The list in force: the one of the last invalidation. */
  function Current(s: State): List
    requires s.lists != []
  {
    s.lists[|s.lists| - 1]
  }

  ghost predicate LockInv(s: State) {
    forall i :: 0 <= i < |s.callers| ==> (Holds(s.callers[i]) <==> s.lock == Some(i))
  }

  /** What a Through that has appended and not yet invalidated is ahead of the list in force by. */
  function Pending(s: State): List {
    if s.lock.Some? && s.lock.value < |s.callers| && s.callers[s.lock.value].AddAppended?
    then s.callers[s.lock.value].stages else []
  }

  /** The cached chain is empty or built from the list in force, and the middleware field is that list and what is
      pending. */
  ghost predicate CacheInv(s: State) {
    && s.lists != []
    && (s.cached.Some? ==> s.cached.value == Current(s))
    && (s.lock.Some? ==> s.lock.value < |s.callers|)
    && s.middleware == Current(s) + Pending(s)
  }

  /** Lists only grow. */
  ghost predicate ListsGrow(lists: seq<List>) {
    forall i, j :: 0 <= i <= j < |lists| ==> lists[i] <= lists[j]
  }

  /** The chain was the list in force at some instant since the Dispatch started. */
  ghost predicate InForceSince(lists: seq<List>, grip: Grip) {
    exists k :: grip.from <= k < |lists| && lists[k] == grip.chain
  }

  ghost predicate FitsHandlers(handlers: map<nat, nat>, selfHandling: set<nat>, kind: nat, t: Target) {
    match t
    case Itself => kind in selfHandling
    case Registered(h) => kind in handlers && handlers[kind] == h
  }

  /** Which handler was called, in terms of the types and handlers: only one that fits the command that came through the
      whole chain. A command that kept its type never fails to meet one, and it is the one found first if that one was
      registered or there is no middleware. */
  ghost predicate UsedFits(selfHandling: set<nat>, handlers: map<nat, nat>, c: Caller)
    requires c.Leaving? && c.commands != []
  {
    var kept := NowKind(c) == GivenKind(c);
    && (c.used.Some? ==> WentThrough(c) && FitsHandlers(handlers, selfHandling, NowKind(c), c.used.value))
    && (WentThrough(c) && kept ==> c.used.Some?)
    && (WentThrough(c) && kept && (c.first.Registered? || c.grip.chain == []) ==> c.used.value == c.first)
    && (WentThrough(c) && c.used.None? ==> NowKind(c) !in selfHandling)
  }

  /** The Dispatch has its chain. */
  predicate Gripping(c: Caller) {
    c.Built? || c.Unlocking? || c.Have? || c.NoHandler? || c.Inside? || c.Leaving?
  }

  ghost predicate CallerInv(selfHandling: set<nat>, s: State, c: Caller) {
    && (c.Missed? || c.Checking? ==> c.from < |s.lists|)
    && (Gripping(c) ==> InForceSince(s.lists, c.grip))
    && (c.Built? ==> s.lists != [] && c.grip.chain == Current(s))
    && (c.Inside? || c.Leaving? ==>
          0 < |c.commands| <= |c.grip.chain| + 1 && FitsHandlers(s.handlers, selfHandling, GivenKind(c), c.first))
    && (c.Leaving? ==> 0 < |c.results| <= |c.commands| && UsedFits(selfHandling, s.handlers, c))
  }

  ghost predicate Inv(selfHandling: set<nat>, s: State) {
    && LockInv(s) && CacheInv(s) && ListsGrow(s.lists)
    && forall i :: 0 <= i < |s.callers| ==> CallerInv(selfHandling, s, s.callers[i])
  }

  /** What another goroutine's step leaves true of a caller: lists are only added, by a Through that holds the lock, and
      handlers only registered. */
  ghost predicate Moves(s: State, t: State) {
    && s.lists <= t.lists
    && (forall k :: k in s.handlers ==> k in t.handlers && t.handlers[k] == s.handlers[k])
    && (t.lists == s.lists || (s.lock.Some? && s.lock.value < |s.callers| && s.callers[s.lock.value].AddAppended?))
  }

  lemma GripStays(s: State, t: State, grip: Grip)
    requires InForceSince(s.lists, grip) && s.lists <= t.lists
    ensures InForceSince(t.lists, grip)
  {
    var k :| grip.from <= k < |s.lists| && s.lists[k] == grip.chain;
    assert t.lists[k] == grip.chain;
  }

  lemma CallerStays(selfHandling: set<nat>, s: State, t: State, j: nat)
    requires CacheInv(s) && LockInv(s) && j < |s.callers| && CallerInv(selfHandling, s, s.callers[j]) && Moves(s, t)
    ensures CallerInv(selfHandling, t, s.callers[j])
  {
    var c := s.callers[j];
    if c.Built? {
      assert s.lock == Some(j);
    }
    if Gripping(c) {
      GripStays(s, t, c.grip);
    }
  }

  lemma LockKept(selfHandling: set<nat>, s: State, e: Event)
    requires LockInv(s) && CacheInv(s) && Enabled(s, e)
    ensures LockInv(Apply(selfHandling, s, e))
  {
    var t := Apply(selfHandling, s, e);
    assert Holds(s.callers[e.i]) <==> s.lock == Some(e.i);
    forall j | 0 <= j < |t.callers|
      ensures Holds(t.callers[j]) <==> t.lock == Some(j)
    {
      assert Holds(s.callers[j]) <==> s.lock == Some(j);
    }
  }

  lemma CacheKept(selfHandling: set<nat>, s: State, e: Event)
    requires LockInv(s) && CacheInv(s) && Enabled(s, e) && CallerInv(selfHandling, s, s.callers[e.i])
    ensures CacheInv(Apply(selfHandling, s, e)) && Moves(s, Apply(selfHandling, s, e))
  {
    var c := s.callers[e.i];
    assert Holds(c) <==> s.lock == Some(e.i);
    assert Current(s) + [] == Current(s);
  }

  lemma ListsKept(selfHandling: set<nat>, s: State, e: Event)
    requires LockInv(s) && CacheInv(s) && ListsGrow(s.lists) && Enabled(s, e)
    ensures ListsGrow(Apply(selfHandling, s, e).lists)
  {
    assert Holds(s.callers[e.i]) <==> s.lock == Some(e.i);
    if s.callers[e.i].AddAppended? {
      assert Current(s) <= s.middleware;
      forall i, j | 0 <= i <= j < |s.lists| + 1
        ensures (s.lists + [s.middleware])[i] <= (s.lists + [s.middleware])[j]
      {
        if j == |s.lists| && i < j {
          assert s.lists[i] <= Current(s);
        }
      }
    }
  }

  /** A Dispatch on its way in or out keeps its own; it changes nothing shared. */
  lemma WalkerKept(selfHandling: set<nat>, s: State, e: Event)
    requires CacheInv(s) && Enabled(s, e) && CallerInv(selfHandling, s, s.callers[e.i])
    requires s.callers[e.i].Have? || s.callers[e.i].Inside? || s.callers[e.i].Leaving?
    ensures CallerInv(selfHandling, Apply(selfHandling, s, e), Apply(selfHandling, s, e).callers[e.i])
  {
  }

  lemma ActorKept(selfHandling: set<nat>, s: State, e: Event)
    requires LockInv(s) && CacheInv(s) && Enabled(s, e) && CallerInv(selfHandling, s, s.callers[e.i])
    ensures CallerInv(selfHandling, Apply(selfHandling, s, e), Apply(selfHandling, s, e).callers[e.i])
  {
    var c := s.callers[e.i];
    if c.Have? || c.Inside? || c.Leaving? {
      WalkerKept(selfHandling, s, e);
    } else {
      assert Holds(c) <==> s.lock == Some(e.i);
      assert s.lists[|s.lists| - 1] == Current(s) && Current(s) + [] == Current(s);
    }
  }

  lemma OthersKept(selfHandling: set<nat>, s: State, t: State, i: nat)
    requires Inv(selfHandling, s) && Moves(s, t) && i < |s.callers| == |t.callers|
    requires t.callers == s.callers[i := t.callers[i]] && CallerInv(selfHandling, t, t.callers[i])
    ensures forall j :: 0 <= j < |t.callers| ==> CallerInv(selfHandling, t, t.callers[j])
  {
    forall j | 0 <= j < |t.callers|
      ensures CallerInv(selfHandling, t, t.callers[j])
    {
      if j != i {
        CallerStays(selfHandling, s, t, j);
      }
    }
  }

  lemma OneCallerMoves(selfHandling: set<nat>, s: State, e: Event)
    requires s.lists != [] && e.i < |s.callers|
    ensures var t := Apply(selfHandling, s, e);
      |t.callers| == |s.callers| && t.callers == s.callers[e.i := t.callers[e.i]]
  {
  }

  lemma StepKeeps(selfHandling: set<nat>, s: State, e: Event)
    requires Inv(selfHandling, s) && Enabled(s, e)
    ensures Inv(selfHandling, Apply(selfHandling, s, e))
  {
    LockKept(selfHandling, s, e);
    CacheKept(selfHandling, s, e);
    ListsKept(selfHandling, s, e);
    ActorKept(selfHandling, s, e);
    OneCallerMoves(selfHandling, s, e);
    OthersKept(selfHandling, s, Apply(selfHandling, s, e), e.i);
  }

  lemma CommandKept(selfHandling: set<nat>, s: State, e: Event, j: nat)
    requires Inv(selfHandling, s) && Enabled(s, e) && j < |s.callers|
    ensures |Apply(selfHandling, s, e).callers| == |s.callers|
    ensures CommandOf(Apply(selfHandling, s, e).callers[j]) == CommandOf(s.callers[j])
  {
    assert CallerInv(selfHandling, s, s.callers[j]);
  }

  lemma {:induction false} RunKeeps(selfHandling: set<nat>, s: State, run: seq<Event>)
    requires Inv(selfHandling, s) && Legal(selfHandling, s, run)
    ensures var t := Exec(selfHandling, s, run);
      && Inv(selfHandling, t) && |t.callers| == |s.callers|
      && forall j :: 0 <= j < |s.callers| ==> CommandOf(t.callers[j]) == CommandOf(s.callers[j])
    decreases |run|
  {
    if run != [] {
      StepKeeps(selfHandling, s, run[0]);
      forall j | 0 <= j < |s.callers|
        ensures CommandOf(Apply(selfHandling, s, run[0]).callers[j]) == CommandOf(s.callers[j])
      {
        CommandKept(selfHandling, s, run[0], j);
      }
      assert |Apply(selfHandling, s, run[0]).callers| == |s.callers|;
      RunKeeps(selfHandling, Apply(selfHandling, s, run[0]), run[1..]);
    }
  }

  // ---------------------------------------------------------------- every interleaving

  /** s is reached by some interleaving of callers that have not begun. */
  ghost predicate Reached(selfHandling: set<nat>, callers: seq<Caller>, run: seq<Event>, s: State) {
    && (forall i :: 0 <= i < |callers| ==> NotBegun(callers[i]))
    && Legal(selfHandling, Init(callers), run) && s == Exec(selfHandling, Init(callers), run)
  }

  lemma ReachedInv(selfHandling: set<nat>, callers: seq<Caller>, run: seq<Event>, s: State)
    requires Reached(selfHandling, callers, run, s)
    ensures Inv(selfHandling, s) && |s.callers| == |callers|
    ensures forall i :: 0 <= i < |callers| ==> CommandOf(s.callers[i]) == CommandOf(callers[i])
  {
    RunKeeps(selfHandling, Init(callers), run);
  }

  /** At every instant the cache is empty or holds exactly the list in force; outside a Through's critical section that
      is the middleware field. */
  lemma CacheIsCurrent(selfHandling: set<nat>, callers: seq<Caller>, run: seq<Event>, s: State)
    requires Reached(selfHandling, callers, run, s)
    ensures s.lists != []
    ensures s.cached.Some? ==> s.cached.value == Current(s)
    ensures (forall i :: 0 <= i < |s.callers| ==> !s.callers[i].AddAppended?) ==> s.middleware == Current(s)
  {
    ReachedInv(selfHandling, callers, run, s);
  }

  /** Every Dispatch, once it has its chain and whether it then finds no handler, is stopped by a stage or reaches a
      handler, uses a list that was in force at some instant of the call: it has every stage whose Through had taken
      effect before the call, and none added after it. */
  lemma DispatchUsesOneList(selfHandling: set<nat>, callers: seq<Caller>, run: seq<Event>, s: State, i: nat)
    requires Reached(selfHandling, callers, run, s) && i < |s.callers| && Gripping(s.callers[i])
    ensures var grip := s.callers[i].grip;
      && InForceSince(s.lists, grip) && grip.from < |s.lists|
      && s.lists[grip.from] <= grip.chain <= Current(s)
  {
    ReachedInv(selfHandling, callers, run, s);
    assert CallerInv(selfHandling, s, s.callers[i]);
  }

  /** Which handler a Dispatch that passed the first check calls, if any: one that fits the type of the command as it
      came through the chain. A command whose type no stage changed always meets one, the one found first if that one
      was registered or the bus has no middleware, and otherwise itself or a handler registered meanwhile. Only one
      whose type a stage changed, to a type that does not handle itself, can meet none. */
  lemma HandlerIsFound(selfHandling: set<nat>, callers: seq<Caller>, run: seq<Event>, s: State, i: nat)
    requires Reached(selfHandling, callers, run, s) && i < |s.callers| && s.callers[i].Leaving?
    ensures var c := s.callers[i];
      && c.commands != [] && i < |callers| && Some(c.commands[0]) == CommandOf(callers[i])
      && (c.used.Some? ==> WentThrough(c) && FitsHandlers(s.handlers, selfHandling, NowKind(c), c.used.value))
      && (NowKind(c) == GivenKind(c) ==> (c.used.Some? <==> WentThrough(c)))
      && (NowKind(c) == GivenKind(c) && c.used.Some? && (c.first.Registered? || c.grip.chain == []) ==>
            c.used.value == c.first)
      && (NowKind(c) == GivenKind(c) && c.used.Some? && c.used.value != c.first ==>
            GivenKind(c) in selfHandling && c.used.value.Registered?)
      && (WentThrough(c) && c.used.None? ==> NowKind(c) != GivenKind(c) && NowKind(c) !in selfHandling)
  {
    ReachedInv(selfHandling, callers, run, s);
    assert CallerInv(selfHandling, s, s.callers[i]);
    assert CommandOf(s.callers[i]) == CommandOf(callers[i]);
  }

  /** At the terminal a handler is called exactly when, at that instant, the command it is given has a registered
      handler or handles itself. */
  lemma TerminalResolvesLive(selfHandling: set<nat>, callers: seq<Caller>, run: seq<Event>, s: State, e: Event)
    requires Reached(selfHandling, callers, run, s) && Enabled(s, e) && AtTerminal(s.callers[e.i])
    ensures s.lists != [] && s.callers[e.i].commands != []
    ensures var kind, c := NowKind(s.callers[e.i]), Apply(selfHandling, s, e).callers[e.i];
      WentThrough(c) && (c.used.Some? <==> kind in s.handlers || kind in selfHandling)
  {
    ReachedInv(selfHandling, callers, run, s);
    assert CallerInv(selfHandling, s, s.callers[e.i]);
  }

  /** The first check refuses a command exactly when, at that instant, its type has no registered handler and does not
      handle itself. */
  lemma FirstCheckIsExact(selfHandling: set<nat>, s: State, e: Event)
    requires s.lists != [] && Enabled(s, e) && s.callers[e.i].Have?
    ensures var kind, c := s.callers[e.i].command.kind, Apply(selfHandling, s, e).callers[e.i];
      && (c.NoHandler? <==> kind !in s.handlers && kind !in selfHandling)
      && (!c.NoHandler? ==> c.Inside? && FitsHandlers(s.handlers, selfHandling, kind, c.first))
  {
  }

  /** What a Through or Register that was begun as was has done by now. */
  ghost predicate TookEffect(s: State, was: Caller, c: Caller) {
    && (was.AddWant? && (c.AddStored? || c.Over?) ==>
          exists k :: 0 < k < |s.lists| && s.lists[k] == s.lists[k - 1] + was.stages)
    && (was.AddWant? && !c.AddStored? && !c.Over? ==>
          (c.AddWant? || c.AddHeld? || c.AddAppended?) && c.stages == was.stages)
    && (was.RegisterWant? ==> c == was || (c.Over? && was.kind in s.handlers))
  }

  lemma EffectKept(selfHandling: set<nat>, s: State, e: Event, was: Caller, j: nat)
    requires Inv(selfHandling, s) && Enabled(s, e) && j < |s.callers| && TookEffect(s, was, s.callers[j])
    ensures j < |Apply(selfHandling, s, e).callers|
    ensures TookEffect(Apply(selfHandling, s, e), was, Apply(selfHandling, s, e).callers[j])
  {
    var t := Apply(selfHandling, s, e);
    CacheKept(selfHandling, s, e);
    OneCallerMoves(selfHandling, s, e);
    assert Holds(s.callers[e.i]) <==> s.lock == Some(e.i);
    assert forall k :: 0 <= k < |s.lists| ==> t.lists[k] == s.lists[k];
    if j == e.i && s.callers[j].AddAppended? && was.AddWant? {
      assert t.lists[|s.lists|] == t.lists[|s.lists| - 1] + was.stages;
    }
  }

  lemma {:induction false} EffectOverRun(selfHandling: set<nat>, s: State, run: seq<Event>, was: Caller, j: nat)
    requires Inv(selfHandling, s) && Legal(selfHandling, s, run) && j < |s.callers| && TookEffect(s, was, s.callers[j])
    ensures var t := Exec(selfHandling, s, run); j < |t.callers| && TookEffect(t, was, t.callers[j])
    decreases |run|
  {
    if run != [] {
      StepKeeps(selfHandling, s, run[0]);
      EffectKept(selfHandling, s, run[0], was, j);
      EffectOverRun(selfHandling, Apply(selfHandling, s, run[0]), run[1..], was, j);
    }
  }

  /** A Through that returned has added exactly its stages, behind those there were; a Register that returned left its
      type with a handler. */
  lemma CallsTakeEffect(selfHandling: set<nat>, callers: seq<Caller>, run: seq<Event>, s: State, i: nat)
    requires Reached(selfHandling, callers, run, s) && i < |s.callers| == |callers| && s.callers[i].Over?
    ensures callers[i].AddWant? ==> exists k :: 0 < k < |s.lists| && s.lists[k] == s.lists[k - 1] + callers[i].stages
    ensures callers[i].RegisterWant? ==> callers[i].kind in s.handlers
  {
    EffectOverRun(selfHandling, Init(callers), run, callers[i], i);
  }

  /** e, then rest. */
  lemma Then(selfHandling: set<nat>, s: State, e: Event, t: State, rest: seq<Event>)
    requires s.lists != [] && Enabled(s, e) && Apply(selfHandling, s, e) == t && Legal(selfHandling, t, rest)
    ensures Legal(selfHandling, s, [e] + rest)
    ensures Exec(selfHandling, s, [e] + rest) == Exec(selfHandling, t, rest)
  {
    assert ([e] + rest)[1..] == rest;
  }

  /** A Dispatch that starts while a chain is cached has the list in force after one step, whoever holds the lock. */
  lemma HitNeedsNoLock(selfHandling: set<nat>, callers: seq<Caller>, run: seq<Event>, s: State, e: Event)
    requires Reached(selfHandling, callers, run, s) && e.i < |s.callers| && s.callers[e.i].Start? && s.cached.Some?
    ensures s.lists != [] && Enabled(s, e)
    ensures var c := Apply(selfHandling, s, e).callers[e.i]; c.Have? && c.grip.chain == Current(s)
  {
    ReachedInv(selfHandling, callers, run, s);
  }

  /** How often a chain is built and stored in a run. */
  ghost function Builds(selfHandling: set<nat>, s: State, run: seq<Event>): nat
    requires s.lists != []
    decreases |run|
  {
    if run == [] then 0
    else (if run[0].i < |s.callers| && s.callers[run[0].i].Built? then 1 else 0)
         + Builds(selfHandling, Apply(selfHandling, s, run[0]), run[1..])
  }

  /** Who has built a chain and is about to store it finds the cache still empty. */
  ghost predicate BuildInv(s: State) {
    forall i :: 0 <= i < |s.callers| && s.callers[i].Built? ==> s.cached.None?
  }

  lemma BuildKept(selfHandling: set<nat>, s: State, e: Event)
    requires Inv(selfHandling, s) && BuildInv(s) && Enabled(s, e)
    ensures BuildInv(Apply(selfHandling, s, e))
  {
    var t := Apply(selfHandling, s, e);
    assert Holds(s.callers[e.i]) <==> s.lock == Some(e.i);
    forall i | 0 <= i < |t.callers| && t.callers[i].Built?
      ensures t.cached.None?
    {
      assert i != e.i ==> (Holds(s.callers[i]) <==> s.lock == Some(i));
    }
  }

  lemma BuildCounts(selfHandling: set<nat>, s: State, e: Event)
    requires Inv(selfHandling, s) && BuildInv(s) && Enabled(s, e)
    ensures var t := Apply(selfHandling, s, e);
      (if s.callers[e.i].Built? then 1 else 0) + (if s.cached.Some? then 1 else 0) <=
      |t.lists| - |s.lists| + (if t.cached.Some? then 1 else 0)
  {
  }

  lemma {:induction false} BuildsOverRun(selfHandling: set<nat>, s: State, run: seq<Event>)
    requires Inv(selfHandling, s) && BuildInv(s) && Legal(selfHandling, s, run)
    ensures var t := Exec(selfHandling, s, run);
      Builds(selfHandling, s, run) + (if s.cached.Some? then 1 else 0) <=
      |t.lists| - |s.lists| + (if t.cached.Some? then 1 else 0)
    decreases |run|
  {
    if run != [] {
      StepKeeps(selfHandling, s, run[0]);
      BuildKept(selfHandling, s, run[0]);
      BuildCounts(selfHandling, s, run[0]);
      BuildsOverRun(selfHandling, Apply(selfHandling, s, run[0]), run[1..]);
    }
  }

  /** In every run a chain is built at most once for each list that was in force, however many Dispatches race for
      it. */
  lemma BuiltOncePerList(selfHandling: set<nat>, callers: seq<Caller>, run: seq<Event>, s: State)
    requires Reached(selfHandling, callers, run, s)
    ensures Builds(selfHandling, Init(callers), run) <= |s.lists|
  {
    BuildsOverRun(selfHandling, Init(callers), run);
  }

  /** Stages passing these commands on, one after the other. */
  function WayIn(i: nat, passed: seq<Command>): seq<Event> {
    if passed == [] then [] else [Step(i, Pass(passed[0]))] + WayIn(i, passed[1..])
  }

  /** These answers given on the way out; they are listed outermost first, so the last is given first. */
  function WayOut(i: nat, answers: seq<nat>): seq<Event> {
    if answers == [] then []
    else [Step(i, Answer(answers[|answers| - 1]))] + WayOut(i, answers[..|answers| - 1])
  }

  /** The Dispatch after further stages passed these commands on. */
  function Further(c: Caller, passed: seq<Command>): Caller
    requires c.Inside?
  {
    Inside(c.grip, c.first, c.commands + passed)
  }

  lemma PassStep(selfHandling: set<nat>, s: State, i: nat, command: Command)
    requires s.lists != [] && i < |s.callers| && s.callers[i].Inside?
    requires |s.callers[i].commands| <= |s.callers[i].grip.chain|
    ensures Enabled(s, Step(i, Pass(command)))
    ensures Apply(selfHandling, s, Step(i, Pass(command))) == With(s, i, Further(s.callers[i], [command]))
  {
  }

  lemma FurtherOn(s: State, i: nat, first: Command, rest: seq<Command>)
    requires i < |s.callers| && s.callers[i].Inside?
    ensures var t := With(s, i, Further(s.callers[i], [first]));
      With(t, i, Further(t.callers[i], rest)) == With(s, i, Further(s.callers[i], [first] + rest))
  {
    var c := s.callers[i];
    assert c.commands + [first] + rest == c.commands + ([first] + rest);
  }

  lemma {:induction false} GoesIn(selfHandling: set<nat>, s: State, i: nat, passed: seq<Command>, rest: seq<Event>)
    requires s.lists != [] && i < |s.callers| && s.callers[i].Inside?
    requires |s.callers[i].commands| + |passed| <= |s.callers[i].grip.chain| + 1
    requires Legal(selfHandling, With(s, i, Further(s.callers[i], passed)), rest)
    ensures Legal(selfHandling, s, WayIn(i, passed) + rest)
    ensures Exec(selfHandling, s, WayIn(i, passed) + rest) ==
      Exec(selfHandling, With(s, i, Further(s.callers[i], passed)), rest)
    decreases |passed|
  {
    var c := s.callers[i];
    if passed == [] {
      assert c.commands + passed == c.commands && s.callers[i := c] == s.callers && WayIn(i, passed) + rest == rest;
    } else {
      var e, t := Step(i, Pass(passed[0])), With(s, i, Further(c, [passed[0]]));
      PassStep(selfHandling, s, i, passed[0]);
      FurtherOn(s, i, passed[0], passed[1..]);
      assert [passed[0]] + passed[1..] == passed;
      GoesIn(selfHandling, t, i, passed[1..], rest);
      Then(selfHandling, s, e, t, WayIn(i, passed[1..]) + rest);
      assert WayIn(i, passed) + rest == [e] + (WayIn(i, passed[1..]) + rest);
    }
  }

  lemma {:induction false} GoesOut(selfHandling: set<nat>, s: State, i: nat, answers: seq<nat>)
    requires s.lists != [] && i < |s.callers| && s.callers[i].Leaving?
    requires |s.callers[i].results| + |answers| <= |s.callers[i].commands|
    ensures Legal(selfHandling, s, WayOut(i, answers))
    ensures var c := s.callers[i];
      Exec(selfHandling, s, WayOut(i, answers)) == With(s, i, c.(results := answers + c.results))
    decreases |answers|
  {
    var c := s.callers[i];
    if answers == [] {
      assert answers + c.results == c.results && s.callers[i := c] == s.callers;
    } else {
      var front, last := answers[..|answers| - 1], answers[|answers| - 1];
      var e, next := Step(i, Answer(last)), c.(results := [last] + c.results);
      var t := With(s, i, next);
      GoesOut(selfHandling, t, i, front);
      Then(selfHandling, s, e, t, WayOut(i, front));
      assert front + ([last] + c.results) == answers + c.results;
      assert t.callers[i := next.(results := answers + c.results)] ==
             s.callers[i := c.(results := answers + c.results)];
    }
  }

  /** Whatever the stages do: a Dispatch just let in whose first |passed| stages pass these commands on, after which the
      next stage, or the terminal if there is none, and then each of them in turn give these answers, returns, and that
      walk is what it records. */
  lemma DispatchWalks(selfHandling: set<nat>, s: State, i: nat, command: Command, passed: seq<Command>,
                      answers: seq<nat>, inner: nat)
    requires s.lists != [] && s.lock.None? && i < |s.callers|
    requires s.callers[i].Inside? && s.callers[i].commands == [command]
    requires |answers| == |passed| <= |s.callers[i].grip.chain|
    ensures var run := WayIn(i, passed) + [Step(i, Answer(inner))] + WayOut(i, answers);
      && Legal(selfHandling, s, run)
      && var t := Exec(selfHandling, s, run);
         i < |t.callers| && Returned(t.callers[i]) && t == With(s, i, t.callers[i])
         && t.callers[i].grip == s.callers[i].grip && t.callers[i].first == s.callers[i].first
         && t.callers[i].commands == [command] + passed && t.callers[i].results == answers + [inner]
  {
    var c := s.callers[i];
    var e, turning := Step(i, Answer(inner)), Further(c, passed);
    var s1 := With(s, i, turning);
    var s2 := Apply(selfHandling, s1, e);
    assert s2 == With(s1, i, s2.callers[i]) && s2.callers[i].Leaving? && s2.callers[i].results == [inner];
    GoesOut(selfHandling, s2, i, answers);
    Then(selfHandling, s1, e, s2, WayOut(i, answers));
    GoesIn(selfHandling, s, i, passed, [e] + WayOut(i, answers));
    assert WayIn(i, passed) + [e] + WayOut(i, answers) == WayIn(i, passed) + ([e] + WayOut(i, answers));
  }

  /** The lists and handlers of a bus with one stage, 5, and one handler, 7 for type 1, and nobody in its lock. */
  function OneStage(lock: Option<nat>, cached: Option<List>, dispatch: Caller): State {
    State(lock, [5], cached, map[1 := 7], [[], [5]], [Over, Over, dispatch])
  }

  const GIVEN := Pipeline.Command(1, 9)
  const CHANGED := Pipeline.Command(2, 9)

  /** On that bus the stage passes a command of type 1 on as one of type 2, which nothing handles. */
  lemma StageChangesType() returns (run: seq<Event>, s: State)
    ensures var s0 := OneStage(None, Some([5]), Have(GIVEN, Grip(1, [5])));
      Legal({}, s0, run) && s == Exec({}, s0, run)
    ensures s == OneStage(None, Some([5]), Leaving(Grip(1, [5]), Registered(7), None, [GIVEN, CHANGED], [0]))
  {
    var grip, say := Grip(1, [5]), Answer(0);
    var s0 := OneStage(None, Some([5]), Have(GIVEN, grip));
    var s1 := OneStage(None, Some([5]), Inside(grip, Registered(7), [GIVEN]));
    var s2 := OneStage(None, Some([5]), Inside(grip, Registered(7), [GIVEN, CHANGED]));
    s := OneStage(None, Some([5]), Leaving(grip, Registered(7), None, [GIVEN, CHANGED], [0]));
    run := [];
    Then({}, s2, Step(2, say), s, run); run := [Step(2, say)] + run;
    assert [GIVEN] + [CHANGED] == [GIVEN, CHANGED];
    Then({}, s1, Step(2, Pass(CHANGED)), s2, run); run := [Step(2, Pass(CHANGED))] + run;
    Then({}, s0, Step(2, say), s1, run); run := [Step(2, say)] + run;
  }

  /** The Dispatch builds the chain on the way there. */
  lemma DispatchBuilds(rest: seq<Event>) returns (run: seq<Event>)
    requires Legal({}, OneStage(None, Some([5]), Have(GIVEN, Grip(1, [5]))), rest)
    ensures Legal({}, OneStage(None, None, Start(GIVEN)), run)
    ensures Exec({}, OneStage(None, None, Start(GIVEN)), run) ==
      Exec({}, OneStage(None, Some([5]), Have(GIVEN, Grip(1, [5]))), rest)
  {
    var grip, e := Grip(1, [5]), Step(2, Answer(0));
    var s0, s1 := OneStage(None, None, Start(GIVEN)), OneStage(None, None, Missed(GIVEN, 1));
    var s2, s3 := OneStage(Some(2), None, Checking(GIVEN, 1)), OneStage(Some(2), None, Built(GIVEN, grip));
    var s4 := OneStage(Some(2), Some([5]), Unlocking(GIVEN, grip));
    var s5 := OneStage(None, Some([5]), Have(GIVEN, grip));
    run := rest;
    Then({}, s4, e, s5, run); run := [e] + run;
    Then({}, s3, e, s4, run); run := [e] + run;
    Then({}, s2, e, s3, run); run := [e] + run;
    Then({}, s1, e, s2, run); run := [e] + run;
    Then({}, s0, e, s1, run); run := [e] + run;
  }

  /** The bus while the Through is at work, before the Register. */
  function Adding(lock: Option<nat>, middleware: List, lists: seq<List>, through: Caller): State {
    State(lock, middleware, None, map[], lists, [through, RegisterWant(1, 7), Start(GIVEN)])
  }

  /** A Through appends the stage. */
  lemma StageIsAppended(rest: seq<Event>) returns (run: seq<Event>)
    requires Legal({}, Adding(Some(0), [5], [[]], AddAppended([5])), rest)
    ensures Legal({}, Adding(None, [], [[]], AddWant([5])), run)
    ensures Exec({}, Adding(None, [], [[]], AddWant([5])), run) ==
      Exec({}, Adding(Some(0), [5], [[]], AddAppended([5])), rest)
  {
    var e := Step(0, Answer(0));
    var s0, s1 := Adding(None, [], [[]], AddWant([5])), Adding(Some(0), [], [[]], AddHeld([5]));
    assert [] + [5] == [5];
    run := rest;
    Then({}, s1, e, Adding(Some(0), [5], [[]], AddAppended([5])), run); run := [e] + run;
    Then({}, s0, e, s1, run); run := [e] + run;
  }

  /** It invalidates the cache and leaves. */
  lemma ThroughLeaves(rest: seq<Event>) returns (run: seq<Event>)
    requires Legal({}, Adding(None, [5], [[], [5]], Over), rest)
    ensures Legal({}, Adding(Some(0), [5], [[]], AddAppended([5])), run)
    ensures Exec({}, Adding(Some(0), [5], [[]], AddAppended([5])), run) ==
      Exec({}, Adding(None, [5], [[], [5]], Over), rest)
  {
    var e := Step(0, Answer(0));
    var s2, s3 := Adding(Some(0), [5], [[]], AddAppended([5])), Adding(Some(0), [5], [[], [5]], AddStored);
    assert [[]] + [[5]] == [[], [5]];
    run := rest;
    Then({}, s3, e, Adding(None, [5], [[], [5]], Over), run); run := [e] + run;
    Then({}, s2, e, s3, run); run := [e] + run;
  }

  /** A Register gives type 1 its handler. */
  lemma HandlerIsRegistered(rest: seq<Event>) returns (run: seq<Event>)
    requires Legal({}, OneStage(None, None, Start(GIVEN)), rest)
    ensures Legal({}, Adding(None, [5], [[], [5]], Over), run)
    ensures Exec({}, Adding(None, [5], [[], [5]], Over), run) == Exec({}, OneStage(None, None, Start(GIVEN)), rest)
  {
    var e := Step(1, Answer(0));
    Then({}, Adding(None, [5], [[], [5]], Over), e, OneStage(None, None, Start(GIVEN)), rest);
    run := [e] + rest;
  }

  /** So a handler can be lost on the way, in a run from the start: the Dispatch finds the handler of its command, goes
      through the whole chain and meets none. */
  lemma StageCanLoseHandler() returns (callers: seq<Caller>, run: seq<Event>, s: State)
    ensures Reached({}, callers, run, s) && |s.callers| == 3
    ensures var c := s.callers[2];
      c.Leaving? && c.first == Registered(7) && WentThrough(c) && c.used.None? && 1 in s.handlers
  {
    run, s := StageChangesType();
    run := DispatchBuilds(run);
    run := HandlerIsRegistered(run);
    run := ThroughLeaves(run);
    run := StageIsAppended(run);
    callers := [AddWant([5]), RegisterWant(1, 7), Start(GIVEN)];
  }

  /** The stages of a chain, given what each number stands for. */
  function StagesOf(stages: nat -> Pipeline.Stage, chain: List): (list: seq<Pipeline.Stage>)
    ensures |list| == |chain| && forall k :: 0 <= k < |chain| ==> list[k] == stages(chain[k])
  {
    if chain == [] then [] else [stages(chain[0])] + StagesOf(stages, chain[1..])
  }

  /** The stages and the terminal do what the Dispatch saw them do. */
  ghost predicate Saw(stages: nat -> Pipeline.Stage, terminal: Pipeline.Handler, c: Caller)
    requires Returned(c)
  {
    var chain, last := c.grip.chain, |c.commands| - 1;
    && (forall k :: 0 <= k < last && k < |chain| ==>
          Pipeline.Passes(stages(chain[k]), c.commands[k], c.commands[k + 1], c.results[k + 1], c.results[k]))
    && (0 <= last < |chain| ==> Pipeline.Stops(stages(chain[last]), c.commands[last], c.results[last]))
    && (last == |chain| ==> terminal(c.commands[last]) == c.results[last])
  }

  /** In every interleaving a Dispatch that returned answered what a fresh fold of the list it used, around the
      terminal, answers: stopped by a stage or not, and whatever the stages made of the command and of the answer. */
  lemma DispatchIsFold(selfHandling: set<nat>, callers: seq<Caller>, run: seq<Event>, s: State, i: nat,
                       stages: nat -> Pipeline.Stage, terminal: Pipeline.Handler)
    requires Reached(selfHandling, callers, run, s) && i < |s.callers| && Returned(s.callers[i])
    requires Saw(stages, terminal, s.callers[i])
    ensures var c := s.callers[i];
      && |c.results| > 0 && InForceSince(s.lists, c.grip)
      && i < |callers| && callers[i].Start?
      && Pipeline.Fold(StagesOf(stages, c.grip.chain), terminal)(callers[i].command) == c.results[0]
  {
    ReachedInv(selfHandling, callers, run, s);
    var c := s.callers[i];
    assert CallerInv(selfHandling, s, c);
    assert CommandOf(c) == CommandOf(callers[i]) && NotBegun(callers[i]);
    var list := StagesOf(stages, c.grip.chain);
    forall k | 0 <= k < |c.commands| - 1
      ensures Pipeline.Passes(list[k], c.commands[k], c.commands[k + 1], c.results[k + 1], c.results[k])
    {
      assert list[k] == stages(c.grip.chain[k]);
    }
    Pipeline.WalkIsFold(list, terminal, c.commands, c.results);
  }
}
