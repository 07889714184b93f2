/** The process-wide package state and who owns it (package_state.go): every live app keeps one installation on a
    stack, oldest first, and the newest live app's values are the installed ones. */
module PackageState {
  import opened Options

  type App = nat

  /** An app's panic hook and package logger; None is installed as nil. */
  datatype Values = Values(hook: Option<nat>, logger: Option<nat>)

  const DEFAULTS := Values(None, None)

  /** One installation on the stack. */
  datatype Entry = Entry(app: App, values: Values)

  // ---------------------------------------------------------------- install and release on values

  ghost predicate OnStack(stack: seq<Entry>, a: App) {
    exists i :: 0 <= i < |stack| && stack[i].app == a
  }

  /** Where a is on the stack, or its length. */
  ghost function IndexOf(stack: seq<Entry>, a: App): (i: nat)
    ensures i <= |stack|
    ensures if OnStack(stack, a) then i < |stack| && stack[i].app == a else i == |stack|
  {
    if OnStack(stack, a) then (var i :| 0 <= i < |stack| && stack[i].app == a; i) else |stack|
  }

  ghost function AfterInstall(stack: seq<Entry>, a: App, values: Values): seq<Entry> {
    var i := IndexOf(stack, a);
    if i < |stack| then stack[i := Entry(a, values)] else stack + [Entry(a, values)]
  }

  ghost function AfterRelease(stack: seq<Entry>, a: App): seq<Entry> {
    var i := IndexOf(stack, a);
    if i < |stack| then stack[..i] + stack[i + 1..] else stack
  }

  /** What the async and trace packages hold. */
  function Installed(stack: seq<Entry>): Values {
    if stack == [] then DEFAULTS else stack[|stack|-1].values
  }

  ghost predicate EachOnce(stack: seq<Entry>) {
    forall i, j :: 0 <= i < j < |stack| ==> stack[i].app != stack[j].app
  }

  // ---------------------------------------------------------------- the code

  /** The process-wide state: the stack of installations, the apps that hold a token, and what the async and trace
      packages were given. A token is its app's entry on the stack. */
  class Process {
    var stack: seq<Entry>
    var holders: set<App>
    var asyncHook: Option<nat>
    var asyncLogger: Option<nat>
    var traceLogger: Option<nat>

    /** An app holds a token exactly when its entry is on the stack, once, and the packages hold the newest app's
        values. */
    ghost predicate Valid()
      reads this
    {
      EachOnce(stack) && holders == AppsOn(stack)
      && Values(asyncHook, asyncLogger) == Installed(stack) && traceLogger == asyncLogger
    }

    constructor ()
      ensures Valid() && stack == []
    {
      stack, holders := [], {};
      asyncHook, asyncLogger, traceLogger := None, None, None;
    }

    /** The entry a token names. */
    method Find(a: App) returns (idx: nat)
      requires EachOnce(stack) && a in AppsOn(stack)
      ensures idx == IndexOf(stack, a) < |stack|
    {
      ghost var mine :| 0 <= mine < |stack| && stack[mine].app == a;
      idx := 0;
      while stack[idx].app != a
        invariant 0 <= idx <= mine < |stack|
        decreases |stack| - idx
      {
        idx := idx + 1;
      }
      assert OnStack(stack, a);
    }

    /** applyPackageState, for the newest entry or none. */
    method Publish(e: Option<Entry>)
      requires if e.Some? then stack != [] && stack[|stack|-1] == e.value else stack == []
      modifies this`asyncHook, this`asyncLogger, this`traceLogger
      ensures Values(asyncHook, asyncLogger) == Installed(stack) && traceLogger == asyncLogger
    {
      var hook, logger := None, None;
      if e.Some? {
        hook, logger := e.value.values.hook, e.value.values.logger;
      }
      asyncHook, asyncLogger, traceLogger := hook, logger, logger;
    }

    /** installPackageState. */
    method Install(a: App, values: Values)
      requires Valid()
      modifies this
      ensures Valid()
      ensures stack == AfterInstall(old(stack), a, values)
    {
      InstallKeepsOnce(stack, a, values);
      var idx := |stack|;
      if a !in holders {
        holders := holders + {a};
        stack := stack + [Entry(a, values)];
      } else {
        idx := Find(a);
        stack := stack[idx := Entry(a, values)];
      }
      if idx == |stack| - 1 {
        Publish(Some(stack[idx]));
      }
    }

    /** releasePackageState. */
    method Release(a: App)
      requires Valid()
      modifies this
      ensures Valid()
      ensures stack == AfterRelease(old(stack), a)
      ensures a !in holders
    {
      ReleaseKeepsOnce(stack, a);
      if a !in holders {
        return;
      }
      var idx := Find(a);
      holders := holders - {a};
      var last := |stack| - 1;
      stack := stack[..idx] + stack[idx + 1..];
      if idx == last {
        Publish(if last > 0 then Some(stack[last - 1]) else None);
      }
    }
  }

  ghost function AppsOn(stack: seq<Entry>): set<App> {
    set i | 0 <= i < |stack| :: stack[i].app
  }

  /** Installing puts a on the stack, once, and changes no other app's place there. */
  lemma InstallKeepsOnce(stack: seq<Entry>, a: App, values: Values)
    requires EachOnce(stack)
    ensures EachOnce(AfterInstall(stack, a, values))
    ensures AppsOn(AfterInstall(stack, a, values)) == AppsOn(stack) + {a}
    ensures a in AppsOn(stack) <==> OnStack(stack, a)
  {
    var i := IndexOf(stack, a);
    var after := AfterInstall(stack, a, values);
    assert after[i].app == a;
    assert forall j :: 0 <= j < |stack| ==> after[j].app == stack[j].app;
  }

  lemma ReleaseKeepsOnce(stack: seq<Entry>, a: App)
    requires EachOnce(stack)
    ensures EachOnce(AfterRelease(stack, a))
    ensures AppsOn(AfterRelease(stack, a)) == AppsOn(stack) - {a}
    ensures a in AppsOn(stack) <==> OnStack(stack, a)
  {
    var i := IndexOf(stack, a);
    var after := AfterRelease(stack, a);
    if i < |stack| {
      assert forall j :: 0 <= j < i ==> after[j] == stack[j];
      assert forall j :: i < j < |stack| ==> after[j - 1] == stack[j];
    }
  }

  // ---------------------------------------------------------------- who owns the state, from the history alone

  datatype Event = Installs(app: App, values: Values) | Releases(app: App)

  ghost function After(stack: seq<Entry>, e: Event): seq<Entry> {
    match e
    case Installs(a, values) => AfterInstall(stack, a, values)
    case Releases(a) => AfterRelease(stack, a)
  }

  /** The stack after a history. */
  ghost function StackAfter(history: seq<Event>): seq<Entry> {
    if history == [] then [] else After(StackAfter(history[..|history|-1]), history[|history|-1])
  }

  /** When a became live: its first install since its last release, or none. */
  ghost function LiveSince(history: seq<Event>, a: App): (at: Option<nat>)
    ensures at.Some? ==> at.value < |history|
  {
    if history == [] then None
    else
      var n := |history| - 1;
      var before := LiveSince(history[..n], a);
      if history[n].app != a then before
      else if history[n].Releases? then None
      else if before.Some? then before
      else Some(n)
  }

  /** What a last recorded. */
  ghost function LastRecorded(history: seq<Event>, a: App): Values {
    if history == [] then DEFAULTS
    else
      var n := |history| - 1;
      if history[n].app == a && history[n].Installs? then history[n].values else LastRecorded(history[..n], a)
  }

  /** The stack lists exactly the live apps, in the order they became live, each with what it last recorded. */
  ghost predicate Tells(history: seq<Event>, stack: seq<Entry>) {
    && EachOnce(stack)
    && (forall a :: LiveSince(history, a).Some? <==> a in AppsOn(stack))
    && (forall i :: 0 <= i < |stack| ==> stack[i].values == LastRecorded(history, stack[i].app))
    && (forall i :: 0 <= i < |stack| ==> LiveSince(history, stack[i].app).Some?)
    && (forall i, j :: 0 <= i < j < |stack| ==>
          LiveSince(history, stack[i].app).value < LiveSince(history, stack[j].app).value)
  }

  lemma AfterOneMore(history: seq<Event>, e: Event, b: App)
    ensures LastRecorded(history + [e], b) == if e.app == b && e.Installs? then e.values else LastRecorded(history, b)
    ensures LiveSince(history + [e], b) ==
      if e.app != b then LiveSince(history, b)
      else if e.Releases? then None
      else if LiveSince(history, b).Some? then LiveSince(history, b)
      else Some(|history|)
  {
    assert (history + [e])[..|history|] == history;
  }

  lemma InstallTells(history: seq<Event>, stack: seq<Entry>, a: App, values: Values)
    requires Tells(history, stack)
    ensures Tells(history + [Installs(a, values)], AfterInstall(stack, a, values))
  {
    var e := Installs(a, values);
    var stack' := AfterInstall(stack, a, values);
    InstallKeepsOnce(stack, a, values);
    var i := IndexOf(stack, a);
    assert stack'[i] == Entry(a, values);
    assert forall k :: 0 <= k < |stack| && k != i ==> stack'[k] == stack[k] && stack[k].app != a;
    forall b
      ensures LiveSince(history + [e], b).Some? <==> b in AppsOn(stack')
    {
      AfterOneMore(history, e, b);
    }
    forall k | 0 <= k < |stack'|
      ensures stack'[k].values == LastRecorded(history + [e], stack'[k].app)
      ensures LiveSince(history + [e], stack'[k].app) ==
        if k < |stack| then LiveSince(history, stack[k].app) else Some(|history|)
    {
      AfterOneMore(history, e, stack'[k].app);
    }
  }

  lemma ReleaseTells(history: seq<Event>, stack: seq<Entry>, a: App)
    requires Tells(history, stack)
    ensures Tells(history + [Releases(a)], AfterRelease(stack, a))
  {
    var e := Releases(a);
    var stack' := AfterRelease(stack, a);
    ReleaseKeepsOnce(stack, a);
    var i := IndexOf(stack, a);
    assert forall k :: 0 <= k < |stack| && k != i ==> stack[k].app != a;
    forall b
      ensures LiveSince(history + [e], b).Some? <==> b in AppsOn(stack')
    {
      AfterOneMore(history, e, b);
    }
    forall k | 0 <= k < |stack'|
      ensures stack'[k] == stack[if k < i then k else k + 1]
      ensures stack'[k].values == LastRecorded(history + [e], stack'[k].app)
      ensures LiveSince(history + [e], stack'[k].app) == LiveSince(history, stack'[k].app)
    {
      AfterOneMore(history, e, stack'[k].app);
    }
  }

  lemma {:induction false} HistoryTells(history: seq<Event>)
    ensures Tells(history, StackAfter(history))
  {
    if history != [] {
      var n := |history| - 1;
      HistoryTells(history[..n]);
      assert history == history[..n] + [history[n]];
      match history[n]
      case Installs(a, values) => InstallTells(history[..n], StackAfter(history[..n]), a, values);
      case Releases(a) => ReleaseTells(history[..n], StackAfter(history[..n]), a);
    }
  }

  /** For every history of installs and releases over any number of apps: what is installed is what the newest live app
      last recorded, however often older apps re-recorded since, and the defaults when no app is live. */
  lemma NewestLiveAppOwns(history: seq<Event>, owner: App)
    ensures LiveSince(history, owner).Some?
      && (forall a :: LiveSince(history, a).Some? ==> LiveSince(history, a).value <= LiveSince(history, owner).value)
      ==> Installed(StackAfter(history)) == LastRecorded(history, owner)
    ensures (forall a :: LiveSince(history, a).None?) ==> Installed(StackAfter(history)) == DEFAULTS
  {
    HistoryTells(history);
    var stack := StackAfter(history);
    if stack != [] {
      var top := stack[|stack|-1];
      assert LiveSince(history, top.app).Some?;
      if owner in AppsOn(stack) {
        var i :| 0 <= i < |stack| && stack[i].app == owner;
      }
    } else {
      assert LiveSince(history, owner).Some? <==> owner in AppsOn(stack);
    }
  }
}
