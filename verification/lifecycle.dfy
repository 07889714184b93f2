/** The module lifecycle over New, Bootstrap and Shutdown (app.go, bootstrap.go, serve.go). Every call the framework
    makes on a module, and every cleanup New runs, is written to a log; whether a call fails is given by a script.
    Modules return errors here; they do not panic. */
module Lifecycle {

  /** WithModules modules, run by New, and chain modules, run by bootstrap. */
  datatype ModuleList = AppModules | ChainModules

  datatype Cleanup =
    | CancelContext
    | CloseResource(k: nat)
    | ReleasePackageState
    | SweepComponents
    | UnwindModules(count: nat)
    | RetireDisplaced

  datatype Call =
    | Init(list: ModuleList, index: nat, ok: bool)
    | Start(list: ModuleList, index: nat, ok: bool)
    | Shutdown(list: ModuleList, index: nat)
    | Ran(cleanup: Cleanup)

  /** Which Init and Start calls fail. */
  datatype Script = Script(initFails: set<nat>, startFails: set<nat>)

  /** No Init and no Start of the first count modules fails. */
  predicate AllPass(script: Script, count: nat) {
    forall i :: 0 <= i < count ==> i !in script.initFails && i !in script.startFails
  }

  // ---------------------------------------------------------------- reading the log

  /** The modules of list whose Init completed, in order. */
  function Completed(log: seq<Call>, list: ModuleList): seq<nat> {
    if log == [] then []
    else
      var c := log[|log|-1];
      var before := Completed(log[..|log|-1], list);
      if c.Init? && c.list == list && c.ok then before + [c.index] else before
  }

  /** The modules of list whose Start was called, in order. */
  function Begun(log: seq<Call>, list: ModuleList): seq<nat> {
    if log == [] then []
    else
      var c := log[|log|-1];
      var before := Begun(log[..|log|-1], list);
      if c.Start? && c.list == list then before + [c.index] else before
  }

  /** The modules of list that were shut down, in order. */
  function Stopped(log: seq<Call>, list: ModuleList): seq<nat> {
    if log == [] then []
    else
      var c := log[|log|-1];
      var before := Stopped(log[..|log|-1], list);
      if c.Shutdown? && c.list == list then before + [c.index] else before
  }

  /** The cleanups that ran, in order. */
  function CleanupsRun(log: seq<Call>): seq<Cleanup> {
    if log == [] then []
    else
      var c := log[|log|-1];
      var before := CleanupsRun(log[..|log|-1]);
      if c.Ran? then before + [c.cleanup] else before
  }

  lemma {:induction false} Appended(log: seq<Call>, c: Call, list: ModuleList)
    ensures Completed(log + [c], list) ==
      Completed(log, list) + if c.Init? && c.list == list && c.ok then [c.index] else []
    ensures Begun(log + [c], list) == Begun(log, list) + if c.Start? && c.list == list then [c.index] else []
    ensures Stopped(log + [c], list) == Stopped(log, list) + if c.Shutdown? && c.list == list then [c.index] else []
    ensures CleanupsRun(log + [c]) == CleanupsRun(log) + if c.Ran? then [c.cleanup] else []
  {
    assert (log + [c])[..|log|] == log;
  }

  function UpTo(n: nat): (s: seq<nat>)
    ensures |s| == n && forall i :: 0 <= i < n ==> s[i] == i
  {
    seq(n, i => i)
  }

  function Reversed<T>(s: seq<T>): (r: seq<T>)
    ensures |r| == |s| && forall i :: 0 <= i < |s| ==> r[i] == s[|s| - 1 - i]
  {
    seq(|s|, i requires 0 <= i < |s| => s[|s| - 1 - i])
  }

  /** Each module of list whose Init completed was shut down once, last first, and no other was. */
  ghost predicate Unwound(log: seq<Call>, list: ModuleList) {
    Stopped(log, list) == Reversed(Completed(log, list))
  }

  /** None of them was shut down, and the first count of them are the ones that completed. */
  ghost predicate Running(log: seq<Call>, list: ModuleList, count: nat) {
    Stopped(log, list) == [] && Completed(log, list) == UpTo(count)
  }

  /** Nothing of other's changed between the two logs. */
  ghost predicate SameFor(before: seq<Call>, after: seq<Call>, list: ModuleList) {
    && Completed(after, list) == Completed(before, list)
    && Begun(after, list) == Begun(before, list)
    && Stopped(after, list) == Stopped(before, list)
  }

  function Other(list: ModuleList): ModuleList {
    if list.AppModules? then ChainModules else AppModules
  }

  /** Every Start of list since from came after every one of count Inits completed. */
  ghost predicate InitsFirst(log: seq<Call>, from: nat, list: ModuleList, count: nat) {
    forall k :: from <= k < |log| && log[k].Start? ==> Completed(log[..k], list) == UpTo(count)
  }

  /** The Starts called are those of the first modules of list, in order. */
  ghost predicate BegunInOrder(log: seq<Call>, list: ModuleList, count: nat) {
    exists m: nat {:trigger UpTo(m)} :: m <= count && Begun(log, list) == UpTo(m)
  }

  /** Nothing but shutdowns of list was called since before. */
  ghost predicate OnlyStops(before: seq<Call>, after: seq<Call>, list: ModuleList) {
    before <= after && forall k :: |before| <= k < |after| ==> after[k].Shutdown? && after[k].list == list
  }

  /** No chain module is shut down after an application module. */
  ghost predicate ChainBeforeApp(log: seq<Call>) {
    forall i, j | 0 <= i < j < |log| && log[i].Shutdown? && log[j].Shutdown? ::
      log[i].list.AppModules? ==> log[j].list.AppModules?
  }

  lemma {:induction false} NoStops(log: seq<Call>, list: ModuleList)
    requires Stopped(log, list) == []
    ensures forall k :: 0 <= k < |log| && log[k].Shutdown? ==> log[k].list != list
  {
    if log != [] {
      var before := log[..|log|-1];
      NoStops(before, list);
      assert forall k :: 0 <= k < |before| ==> log[k] == before[k];
    }
  }

  // ---------------------------------------------------------------- the code

  /** The Init loop's state at module i: its calls since base concern only list. */
  ghost predicate Initing(base: seq<Call>, log: seq<Call>, list: ModuleList, i: nat) {
    && base <= log && Running(log, list, i)
    && Begun(log, list) == [] && (forall k :: |base| <= k < |log| ==> !log[k].Start?)
    && SameFor(base, log, Other(list)) && CleanupsRun(log) == CleanupsRun(base)
  }

  lemma InitNext(base: seq<Call>, log: seq<Call>, list: ModuleList, i: nat, passed: bool)
    requires Initing(base, log, list, i)
    ensures Initing(base, log + [Init(list, i, passed)], list, if passed then i + 1 else i)
  {
    Appended(log, Init(list, i, passed), list);
    Appended(log, Init(list, i, passed), Other(list));
    assert UpTo(i) + [i] == UpTo(i + 1);
  }

  /** The Start loop's state at module i. */
  ghost predicate Starting(base: seq<Call>, log: seq<Call>, list: ModuleList, count: nat, i: nat) {
    && base <= log && Running(log, list, count)
    && Begun(log, list) == UpTo(i) && InitsFirst(log, |base|, list, count)
    && SameFor(base, log, Other(list)) && CleanupsRun(log) == CleanupsRun(base)
  }

  lemma StartNext(base: seq<Call>, log: seq<Call>, list: ModuleList, count: nat, i: nat, passed: bool)
    requires Starting(base, log, list, count, i)
    ensures Starting(base, log + [Start(list, i, passed)], list, count, i + 1)
  {
    var log' := log + [Start(list, i, passed)];
    Appended(log, Start(list, i, passed), list);
    Appended(log, Start(list, i, passed), Other(list));
    assert UpTo(i) + [i] == UpTo(i + 1);
    forall k | |base| <= k < |log'| && log'[k].Start?
      ensures Completed(log'[..k], list) == UpTo(count)
    {
      assert log'[..k] == log[..k];
      assert k == |log| ==> log[..k] == log;
    }
  }

  /** What runModuleLifecycle leaves, however it ends: the first registered modules are up, in order, no Start came
      before the last Init, and nothing else was called. */
  ghost predicate LifecycleRan(base: seq<Call>, log: seq<Call>, list: ModuleList, count: nat, registered: nat) {
    && registered <= count && Running(log, list, registered)
    && base <= log && InitsFirst(log, |base|, list, count) && BegunInOrder(log, list, count)
    && SameFor(base, log, Other(list)) && CleanupsRun(log) == CleanupsRun(base)
  }

  lemma InitingRan(base: seq<Call>, log: seq<Call>, list: ModuleList, count: nat, i: nat)
    requires Initing(base, log, list, i) && i <= count
    ensures LifecycleRan(base, log, list, count, i)
  {
    assert UpTo(0) == [];
  }

  lemma StartingRan(base: seq<Call>, log: seq<Call>, list: ModuleList, count: nat, i: nat)
    requires Starting(base, log, list, count, i) && i <= count
    ensures LifecycleRan(base, log, list, count, count)
  {
    assert Begun(log, list) == UpTo(i);
  }

  /** bootstrap.go, runModuleLifecycle: every Init, then every Start. registered counts the completed Inits. */
  method RunModuleLifecycle(log: seq<Call>, list: ModuleList, count: nat, script: Script)
    returns (registered: nat, ok: bool, log': seq<Call>)
    requires Running(log, list, 0) && Begun(log, list) == []
    ensures LifecycleRan(log, log', list, count, registered)
    ensures ok ==> registered == count && Begun(log', list) == UpTo(count)
    ensures ok <==> AllPass(script, count)
  {
    log' := log;
    for i := 0 to count
      invariant Initing(log, log', list, i)
      invariant forall k :: 0 <= k < i ==> k !in script.initFails
    {
      var passed := i !in script.initFails;
      InitNext(log, log', list, i, passed);
      log' := log' + [Init(list, i, passed)];
      if !passed {
        InitingRan(log, log', list, count, i);
        assert !AllPass(script, count);
        return i, false, log';
      }
    }
    assert UpTo(0) == [];
    for i := 0 to count
      invariant Starting(log, log', list, count, i)
      invariant forall k :: 0 <= k < i ==> k !in script.startFails
    {
      var passed := i !in script.startFails;
      StartNext(log, log', list, count, i, passed);
      log' := log' + [Start(list, i, passed)];
      if !passed {
        StartingRan(log, log', list, count, i + 1);
        assert !AllPass(script, count);
        return count, false, log';
      }
    }
    StartingRan(log, log', list, count, count);
    return count, true, log';
  }

  /** The reverse loop every unwind and the teardown share. */
  method ShutdownInReverse(log: seq<Call>, list: ModuleList, count: nat) returns (log': seq<Call>)
    requires Running(log, list, count)
    ensures Unwound(log', list) && Completed(log', list) == UpTo(count) && OnlyStops(log, log', list)
    ensures SameFor(log, log', Other(list)) && CleanupsRun(log') == CleanupsRun(log)
  {
    log' := log;
    var i := count;
    while i > 0
      invariant 0 <= i <= count
      invariant Completed(log', list) == UpTo(count)
      invariant Stopped(log', list) == Reversed(UpTo(count))[..count - i] && OnlyStops(log, log', list)
      invariant SameFor(log, log', Other(list)) && CleanupsRun(log') == CleanupsRun(log)
    {
      i := i - 1;
      Appended(log', Shutdown(list, i), list);
      Appended(log', Shutdown(list, i), Other(list));
      log' := log' + [Shutdown(list, i)];
      assert Reversed(UpTo(count))[..count - i] == Reversed(UpTo(count))[..count - i - 1] + [i];
    }
    assert Reversed(UpTo(count))[..count] == Reversed(UpTo(count));
  }

  /** One of the cleanups from i on unwinds the modules. */
  ghost predicate Unwinds(cleanups: seq<Cleanup>, i: nat) {
    exists k :: i <= k < |cleanups| && cleanups[k].UnwindModules?
  }

  /** The cleanup loop's state when those from i on have run. */
  ghost predicate Cleaning(base: seq<Call>, log: seq<Call>, cleanups: seq<Cleanup>, count: nat, i: nat)
    requires i <= |cleanups|
  {
    && CleanupsRun(log) == Reversed(cleanups[i..])
    && SameFor(base, log, ChainModules) && Completed(log, AppModules) == UpTo(count)
    && if Unwinds(cleanups, i) then Unwound(log, AppModules) else Stopped(log, AppModules) == []
  }

  lemma CleanupNext(base: seq<Call>, log: seq<Call>, cleanups: seq<Cleanup>, count: nat, i: nat)
    requires i < |cleanups| && CleanupsRun(log) == Reversed(cleanups[i + 1..])
    requires SameFor(base, log, ChainModules) && Completed(log, AppModules) == UpTo(count)
    requires if Unwinds(cleanups, i) then Unwound(log, AppModules) else Stopped(log, AppModules) == []
    ensures Cleaning(base, log + [Ran(cleanups[i])], cleanups, count, i)
  {
    Appended(log, Ran(cleanups[i]), AppModules);
    Appended(log, Ran(cleanups[i]), ChainModules);
    assert Reversed(cleanups[i..]) == Reversed(cleanups[i + 1..]) + [cleanups[i]];
  }

  /** app.go, the deferred cleanup stack: last pushed, first run. At most one cleanup unwinds modules. */
  method RunCleanups(log: seq<Call>, cleanups: seq<Cleanup>, count: nat) returns (log': seq<Call>)
    requires Running(log, AppModules, count) && CleanupsRun(log) == []
    requires forall i :: 0 <= i < |cleanups| && cleanups[i].UnwindModules? ==> cleanups[i].count == count
    requires forall i, j :: 0 <= i < j < |cleanups| ==> !(cleanups[i].UnwindModules? && cleanups[j].UnwindModules?)
    ensures CleanupsRun(log') == Reversed(cleanups)
    ensures SameFor(log, log', ChainModules) && Completed(log', AppModules) == UpTo(count)
    ensures if Unwinds(cleanups, 0) then Unwound(log', AppModules) else Stopped(log', AppModules) == []
  {
    log' := log;
    var i := |cleanups|;
    while i > 0
      invariant 0 <= i <= |cleanups| && Cleaning(log, log', cleanups, count, i)
    {
      i := i - 1;
      var c := cleanups[i];
      if c.UnwindModules? {
        assert !Unwinds(cleanups, i + 1);
        log' := ShutdownInReverse(log', AppModules, count);
      }
      CleanupNext(log, log', cleanups, count, i);
      log' := log' + [Ran(c)];
    }
    assert cleanups[0..] == cleanups;
  }

  /** How New ended: at which step it failed, if it did. */
  datatype Outcome =
    | Built
    | ResourceFailed(reached: nat)
    | FirstRebindFailed
    | ModuleFailed(registered: nat)
    | SecondRebindFailed
    | HookFailed

  /** The context's cleanup, then one per resource opened. */
  function ResourceCleanups(reached: nat): (s: seq<Cleanup>)
    ensures |s| == reached + 1 && s[0] == CancelContext
    ensures forall i :: 1 <= i <= reached ==> s[i] == CloseResource(i - 1)
  {
    seq(reached + 1, i => if i <= 0 then CancelContext else CloseResource(i - 1))
  }

  /** The cleanup stack at the end of New. */
  function Pushed(outcome: Outcome, resources: nat, modules: nat): seq<Cleanup> {
    match outcome
    case Built => []
    case ResourceFailed(reached) => ResourceCleanups(reached)
    case FirstRebindFailed => ResourceCleanups(resources) + [ReleasePackageState]
    case ModuleFailed(registered) =>
      ResourceCleanups(resources) + [ReleasePackageState, SweepComponents, UnwindModules(registered), RetireDisplaced]
    case SecondRebindFailed =>
      ResourceCleanups(resources) + [ReleasePackageState, SweepComponents, UnwindModules(modules), RetireDisplaced]
    case HookFailed => ResourceCleanups(resources) + [ReleasePackageState, SweepComponents, UnwindModules(modules)]
  }

  /** The order New's steps are taken in, and so the order their cleanups are pushed in. */
  function StepOf(c: Cleanup, resources: nat): nat {
    match c
    case CancelContext => 0
    case CloseResource(k) => k + 1
    case ReleasePackageState => resources + 1
    case SweepComponents => resources + 2
    case UnwindModules(_) => resources + 3
    case RetireDisplaced => resources + 4
  }

  /** Each cleanup belongs to an earlier step of New than the one before it. */
  ghost predicate LatestFirst(ran: seq<Cleanup>, resources: nat) {
    forall i, j :: 0 <= i < j < |ran| ==> StepOf(ran[i], resources) > StepOf(ran[j], resources)
  }

  /** The resources New had opened when it ended. */
  function OpenedBy(outcome: Outcome, resources: nat): nat {
    if outcome.ResourceFailed? then outcome.reached else resources
  }

  /** The cleanup belongs to a step New had taken when it ended this way. */
  predicate StepTaken(outcome: Outcome, resources: nat, modules: nat, c: Cleanup) {
    var lifecycleRan := outcome.ModuleFailed? || outcome.SecondRebindFailed? || outcome.HookFailed?;
    && !outcome.Built?
    && match c
       case CancelContext => true
       case CloseResource(k) => k < OpenedBy(outcome, resources)
       case ReleasePackageState => !outcome.ResourceFailed?
       case SweepComponents => lifecycleRan
       case UnwindModules(n) => lifecycleRan && n == if outcome.ModuleFailed? then outcome.registered else modules
       case RetireDisplaced => lifecycleRan && !outcome.HookFailed?
  }

  lemma PushedByStep(outcome: Outcome, resources: nat, modules: nat, i: nat)
    requires outcome.ResourceFailed? ==> outcome.reached < resources
    requires i < |Pushed(outcome, resources, modules)|
    ensures var c := Pushed(outcome, resources, modules)[i];
      StepOf(c, resources) == i && StepTaken(outcome, resources, modules, c)
  {
  }

  lemma TakenIsPushed(outcome: Outcome, resources: nat, modules: nat, c: Cleanup)
    requires outcome.ResourceFailed? ==> outcome.reached < resources
    requires StepTaken(outcome, resources, modules, c)
    ensures StepOf(c, resources) < |Pushed(outcome, resources, modules)|
    ensures Pushed(outcome, resources, modules)[StepOf(c, resources)] == c
  {
  }

  /** A failed New ran its cleanups in the reverse order of its steps: retirement before the module unwind, that before
      the component sweep, that before the package state, that before the resources, last opened first, and the context
      last. It ran the one of every step it had taken, and no other; a successful New ran none. */
  lemma CleanupsInReverse(outcome: Outcome, resources: nat, modules: nat)
    requires outcome.ResourceFailed? ==> outcome.reached < resources
    ensures var ran := Reversed(Pushed(outcome, resources, modules));
      && LatestFirst(ran, resources)
      && forall c :: c in ran <==> StepTaken(outcome, resources, modules, c)
  {
    var pushed := Pushed(outcome, resources, modules);
    InReversed(pushed);
    forall i | 0 <= i < |pushed|
      ensures StepOf(pushed[i], resources) == i && StepTaken(outcome, resources, modules, pushed[i])
    {
      PushedByStep(outcome, resources, modules, i);
    }
    forall c | StepTaken(outcome, resources, modules, c)
      ensures c in pushed
    {
      TakenIsPushed(outcome, resources, modules, c);
      assert pushed[StepOf(c, resources)] in pushed;
    }
  }

  lemma InReversed<T>(s: seq<T>)
    ensures forall x :: x in Reversed(s) <==> x in s
  {
    forall x | x in s
      ensures x in Reversed(s)
    {
      var i :| 0 <= i < |s| && s[i] == x;
      assert Reversed(s)[|s| - 1 - i] == x;
    }
  }

  class App {
    const modules: nat
    var chainModules: nat
    var bootstrapped: bool
    var bootstrapOk: bool
    var bodyRuns: nat
    var tornDown: bool
    var log: seq<Call>
    /** The bootstrap body first ran after the teardown. */
    ghost var late: bool

    ghost predicate Fresh()
      reads this
    {
      log == [] && chainModules == 0 && !bootstrapped && bodyRuns == 0 && !tornDown && !late
    }

    /** The chain modules: running, or unwound and dropped. */
    ghost predicate ChainSettled()
      reads this
    {
      Running(log, ChainModules, chainModules) || (chainModules == 0 && Unwound(log, ChainModules))
    }

    /** What holds of every app New returned, whatever was called on it since. */
    ghost predicate Valid()
      reads this
    {
      && bodyRuns == (if bootstrapped then 1 else 0)
      && Completed(log, AppModules) == UpTo(modules)
      && (!bootstrapped ==> chainModules == 0 && Running(log, ChainModules, 0) && Begun(log, ChainModules) == [])
      && (late ==> tornDown)
      && (if tornDown then Unwound(log, AppModules) else Stopped(log, AppModules) == [])
      && (if tornDown && !late then Unwound(log, ChainModules) else ChainSettled())
    }

    constructor (modules: nat)
      ensures Fresh() && this.modules == modules
    {
      this.modules := modules;
      chainModules, bootstrapped, bootstrapOk, bodyRuns, tornDown, log, late := 0, false, false, 0, false, [], false;
    }

    /** app.go, New: opens says which resources open, script how the modules behave. A failed New has run every cleanup
        it pushed, last first, and has shut down exactly the modules whose Init completed, last first. */
    method New(opens: seq<bool>, script: Script, rebind1: bool, rebind2: bool, hooksOk: bool) returns (outcome: Outcome)
      requires Fresh()
      modifies this`log
      ensures CleanupsRun(log) == Reversed(Pushed(outcome, |opens|, modules))
      ensures outcome.Built? ==> Valid() && !bootstrapped && !tornDown
      ensures !outcome.Built? ==> Unwound(log, AppModules)
      ensures !outcome.Built? ==> Completed(log, ChainModules) == [] == Stopped(log, ChainModules)
      ensures outcome.ResourceFailed? ==> outcome.reached < |opens| && !opens[outcome.reached]
      ensures outcome.ResourceFailed? ==> Completed(log, AppModules) == []
      ensures outcome.ResourceFailed? ==> forall k :: 0 <= k < outcome.reached ==> opens[k]
      ensures outcome.FirstRebindFailed? ==> !rebind1 && Completed(log, AppModules) == []
      ensures outcome.ModuleFailed? ==> Completed(log, AppModules) == UpTo(outcome.registered)
      ensures outcome.ModuleFailed? ==> !AllPass(script, modules)
      ensures outcome.Built? <==>
        (forall k :: 0 <= k < |opens| ==> opens[k]) && rebind1 && AllPass(script, modules) && rebind2 && hooksOk
      ensures outcome.SecondRebindFailed? ==> !rebind2 && Completed(log, AppModules) == UpTo(modules)
      ensures outcome.HookFailed? ==> !hooksOk && Completed(log, AppModules) == UpTo(modules)
    {
      var cleanups := [CancelContext];
      for k := 0 to |opens|
        invariant cleanups == ResourceCleanups(k) && log == []
        invariant forall i :: 0 <= i < k ==> opens[i]
      {
        if !opens[k] {
          log := RunCleanups(log, cleanups, 0);
          return ResourceFailed(k);
        }
        cleanups := cleanups + [CloseResource(k)];
      }
      cleanups := cleanups + [ReleasePackageState];
      if !rebind1 {
        log := RunCleanups(log, cleanups, 0);
        return FirstRebindFailed;
      }
      var registered, ok, log' := RunModuleLifecycle(log, AppModules, modules, script);
      log := log';
      outcome := if !ok then ModuleFailed(registered)
                 else if !rebind2 then SecondRebindFailed
                 else if !hooksOk then HookFailed
                 else Built;
      if outcome.Built? {
        return;
      }
      cleanups := cleanups + [SweepComponents, UnwindModules(registered)];
      assert cleanups[|cleanups| - 1].UnwindModules?;
      if !outcome.HookFailed? {
        cleanups := cleanups + [RetireDisplaced];
        assert cleanups[|cleanups| - 2].UnwindModules?;
      }
      assert cleanups == Pushed(outcome, |opens|, modules);
      log := RunCleanups(log, cleanups, registered);
    }

    /** bootstrap.go, bootstrap and runBootstrap: count chain modules; restOk is everything after their lifecycle. */
    method Bootstrap(count: nat, script: Script, restOk: bool) returns (ok: bool)
      requires Valid()
      modifies this`log, this`chainModules, this`bootstrapped, this`bootstrapOk, this`bodyRuns, this`late
      ensures Valid() && bootstrapped && ok == bootstrapOk
      ensures old(bootstrapped) ==> unchanged(this)
      ensures !old(bootstrapped) ==> late == tornDown
      ensures !old(bootstrapped) ==> (ok <==> AllPass(script, count) && restOk)
      ensures !old(bootstrapped) && AllPass(script, count) ==>
        chainModules == count && Running(log, ChainModules, count) && Begun(log, ChainModules) == UpTo(count)
      ensures !old(bootstrapped) && !AllPass(script, count) ==> chainModules == 0 && Unwound(log, ChainModules)
      ensures SameFor(old(log), log, AppModules)
    {
      if bootstrapped {
        return bootstrapOk;
      }
      bootstrapped, bodyRuns, late := true, bodyRuns + 1, tornDown;
      chainModules := count;
      var registered, passed, log' := RunModuleLifecycle(log, ChainModules, count, script);
      log := log';
      if !passed {
        log := ShutdownInReverse(log, ChainModules, registered);
        chainModules := 0;
      }
      bootstrapOk := passed && restOk;
      return bootstrapOk;
    }

    /** serve.go, Shutdown: the first call runs the teardown, a later one returns its result. Once it ran, every module
        whose Init completed before it has been shut down exactly once, last first, and no other has. */
    method Shutdown()
      requires Valid()
      modifies this`log, this`tornDown
      ensures Valid() && tornDown
      ensures old(tornDown) ==> unchanged(this)
      ensures forall list :: Completed(log, list) == Completed(old(log), list)
      ensures !old(tornDown) ==> Unwound(log, AppModules) && Unwound(log, ChainModules) && ChainBeforeApp(log)
    {
      if tornDown {
        return;
      }
      tornDown := true;
      NoStops(log, AppModules);
      if chainModules > 0 {
        log := ShutdownInReverse(log, ChainModules, chainModules);
      }
      log := ShutdownInReverse(log, AppModules, modules);
      forall list
        ensures Completed(log, list) == Completed(old(log), list)
      {
        assert list == AppModules || list == ChainModules;
      }
    }
  }

  // ---------------------------------------------------------------- what an unwound list means

  /** Unwound, counted: module i of a list was shut down as often as its Init completed. */
  lemma UnwoundCounts(log: seq<Call>, list: ModuleList, i: nat)
    requires Unwound(log, list)
    ensures multiset(Stopped(log, list))[i] == multiset(Completed(log, list))[i]
  {
    ReversedSame(Completed(log, list));
  }

  lemma {:induction false} ReversedSame<T>(s: seq<T>)
    ensures multiset(Reversed(s)) == multiset(s)
  {
    if s == [] {
      assert Reversed(s) == [];
    } else {
      var rest := s[1..];
      ReversedSame(rest);
      assert s == [s[0]] + rest;
      assert Reversed(s) == Reversed(rest) + [s[0]];
    }
  }

  /** Chain modules bootstrapped only after the teardown are never shut down: their list is unwound only when empty. */
  lemma LateChainStaysUp(a: App)
    requires a.Valid() && a.late
    ensures Unwound(a.log, ChainModules) <==> a.chainModules == 0
  {
    if a.chainModules > 0 {
      assert Running(a.log, ChainModules, a.chainModules);
      assert |Stopped(a.log, ChainModules)| != |Completed(a.log, ChainModules)|;
    } else if Running(a.log, ChainModules, 0) {
      assert Completed(a.log, ChainModules) == [];
    }
  }

  /** It happens: New, Shutdown, then the first Bootstrap, with one chain module. */
  method BootstrapAfterShutdown() returns (a: App)
    ensures a.Valid() && a.tornDown && a.late && a.chainModules == 1
    ensures Completed(a.log, ChainModules) == [0] && Stopped(a.log, ChainModules) == []
    ensures !Unwound(a.log, ChainModules)
  {
    var script := Script({}, {});
    a := new App(0);
    var _ := a.New([], script, true, true, true);
    a.Shutdown();
    var _ := a.Bootstrap(1, script, true);
    LateChainStaysUp(a);
  }

  // ---------------------------------------------------------------- the component sweep

  datatype Component = Component(value: nat, hooks: seq<nat>)

  /** The instances in the order the sweep meets them: entries last first, each value before its hooks. */
  function Walk(entries: seq<Component>): seq<nat> {
    if entries == [] then []
    else
      var last := entries[|entries| - 1];
      [last.value] + last.hooks + Walk(entries[..|entries| - 1])
  }

  /** The calls the sweep makes over a walk. */
  function Swept(walk: seq<nat>, aware: set<nat>, comparable: set<nat>): seq<nat> {
    if walk == [] then []
    else
      var v := walk[|walk| - 1];
      var before := Swept(walk[..|walk| - 1], aware, comparable);
      if v !in aware || (v in comparable && v in walk[..|walk| - 1]) then before else before + [v]
  }

  /** The seen-set after a walk. */
  function SeenIn(walk: seq<nat>, aware: set<nat>, comparable: set<nat>): set<nat> {
    set v | v in walk && v in aware && v in comparable
  }

  /** The sweep's calls and seen-set after a walk. */
  ghost predicate SweptTo(walk: seq<nat>, aware: set<nat>, comparable: set<nat>, seen: set<nat>, calls: seq<nat>) {
    calls == Swept(walk, aware, comparable) && seen == SeenIn(walk, aware, comparable)
  }

  lemma {:induction false} SweptNext(walk: seq<nat>, aware: set<nat>, comparable: set<nat>, v: nat)
    ensures Swept(walk + [v], aware, comparable) ==
      Swept(walk, aware, comparable) + if v in aware && !(v in SeenIn(walk, aware, comparable)) then [v] else []
    ensures SeenIn(walk + [v], aware, comparable) ==
      SeenIn(walk, aware, comparable) + if v in aware && v in comparable then {v} else {}
  {
    assert (walk + [v])[..|walk|] == walk;
  }

  /** serve.go, shutdownComponents' shutdownOne. */
  method ShutdownOne(v: nat, aware: set<nat>, comparable: set<nat>, ghost walk: seq<nat>, seen: set<nat>,
                     calls: seq<nat>)
    returns (seen': set<nat>, calls': seq<nat>)
    requires SweptTo(walk, aware, comparable, seen, calls)
    ensures SweptTo(walk + [v], aware, comparable, seen', calls')
  {
    SweptNext(walk, aware, comparable, v);
    if v !in aware || (v in comparable && v in seen) {
      return seen, calls;
    }
    return if v in comparable then seen + {v} else seen, calls + [v];
  }

  lemma PrefixNext(walk: seq<nat>, values: seq<nat>, i: nat)
    requires i < |values|
    ensures walk + values[..i + 1] == (walk + values[..i]) + [values[i]]
  {
  }

  /** One entry of the sweep: the value, then its hooks. */
  method ShutdownEntry(e: Component, aware: set<nat>, comparable: set<nat>, ghost walk: seq<nat>, seen: set<nat>,
                       calls: seq<nat>)
    returns (seen': set<nat>, calls': seq<nat>)
    requires SweptTo(walk, aware, comparable, seen, calls)
    ensures SweptTo(walk + ([e.value] + e.hooks), aware, comparable, seen', calls')
  {
    ghost var begun := walk + [e.value];
    seen', calls' := ShutdownOne(e.value, aware, comparable, walk, seen, calls);
    assert begun + e.hooks[..0] == begun;
    for i := 0 to |e.hooks|
      invariant SweptTo(begun + e.hooks[..i], aware, comparable, seen', calls')
    {
      PrefixNext(begun, e.hooks, i);
      seen', calls' := ShutdownOne(e.hooks[i], aware, comparable, begun + e.hooks[..i], seen', calls');
    }
    assert e.hooks[..|e.hooks|] == e.hooks;
    Joined(walk, [e.value], e.hooks);
  }

  lemma {:induction false} WalkLast(entries: seq<Component>, before: seq<nat>)
    requires entries != []
    ensures var e := entries[|entries| - 1];
      before + Walk(entries) == (before + ([e.value] + e.hooks)) + Walk(entries[..|entries| - 1])
  {
    var e := entries[|entries| - 1];
    Joined(before, [e.value] + e.hooks, Walk(entries[..|entries| - 1]));
  }

  lemma Joined(a: seq<nat>, b: seq<nat>, c: seq<nat>)
    ensures a + (b + c) == (a + b) + c
  {
  }

  /** serve.go, shutdownComponents. */
  method ShutdownComponents(entries: seq<Component>, aware: set<nat>, comparable: set<nat>) returns (calls: seq<nat>)
    ensures calls == Swept(Walk(entries), aware, comparable)
  {
    var seen: set<nat> := {};
    calls := [];
    ghost var walk: seq<nat> := [];
    var i := |entries|;
    assert entries[..i] == entries;
    while i > 0
      invariant 0 <= i <= |entries|
      invariant walk + Walk(entries[..i]) == Walk(entries)
      invariant SweptTo(walk, aware, comparable, seen, calls)
    {
      i := i - 1;
      WalkLast(entries[..i + 1], walk);
      assert entries[..i + 1][..i] == entries[..i];
      seen, calls := ShutdownEntry(entries[i], aware, comparable, walk, seen, calls);
      walk := walk + ([entries[i].value] + entries[i].hooks);
    }
    assert walk == Walk(entries);
  }

  /** How many instances the sweep meets before those of entry i: those of the entries registered after it. */
  function MetBefore(entries: seq<Component>, i: nat): nat
    requires i < |entries|
    decreases |entries|
  {
    var n := |entries| - 1;
    if i == n then 0 else 1 + |entries[n].hooks| + MetBefore(entries[..n], i)
  }

  /** The sweep meets the entries in reverse order of registration, and in each the value and then its hooks, in
      order. */
  lemma {:induction false} WalkIsReverse(entries: seq<Component>, i: nat)
    requires i < |entries|
    ensures var at := MetBefore(entries, i);
      && at + |entries[i].hooks| < |Walk(entries)|
      && Walk(entries)[at] == entries[i].value
      && (forall h :: 0 <= h < |entries[i].hooks| ==> Walk(entries)[at + 1 + h] == entries[i].hooks[h])
    ensures i > 0 ==> MetBefore(entries, i - 1) == MetBefore(entries, i) + 1 + |entries[i].hooks|
    decreases |entries|
  {
    var n := |entries| - 1;
    var last := entries[n];
    if i < n {
      WalkIsReverse(entries[..n], i);
      assert entries[..n][i] == entries[i];
    }
    assert Walk(entries) == [last.value] + last.hooks + Walk(entries[..n]);
  }

  /** The calls are made in the order of the walk: an instance met at k is shut down, unless it cannot be or was before,
      right after those shut down for what came before k. */
  lemma {:induction false} SweptInOrder(walk: seq<nat>, aware: set<nat>, comparable: set<nat>, k: nat)
    requires k < |walk|
    ensures var before := Swept(walk[..k], aware, comparable);
      && before <= Swept(walk, aware, comparable)
      && (walk[k] in aware && !(walk[k] in comparable && walk[k] in walk[..k]) ==>
            before + [walk[k]] <= Swept(walk, aware, comparable))
  {
    var n := |walk| - 1;
    if k < n {
      SweptInOrder(walk[..n], aware, comparable, k);
      assert walk[..n][..k] == walk[..k];
    }
  }

  /** A comparable instance is shut down once however often it is registered; any other, once per registration; only
      those that can be shut down are. */
  lemma {:induction false} SweptOnce(walk: seq<nat>, aware: set<nat>, comparable: set<nat>, v: nat)
    ensures multiset(Swept(walk, aware, comparable))[v] ==
      if v !in aware then 0
      else if v in comparable then (if v in walk then 1 else 0)
      else multiset(walk)[v]
  {
    if walk != [] {
      var before := walk[..|walk| - 1];
      SweptOnce(before, aware, comparable, v);
      assert walk == before + [walk[|walk| - 1]];
      assert multiset(walk) == multiset(before) + multiset{walk[|walk| - 1]};
    }
  }
}
