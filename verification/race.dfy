/** async.Race (async/parallel.go) over the write-once Result (async/result.go): one goroutine per function, a shared
    result cell, a won flag, a cancelled context, the first recorded panic, and a supervisor that waits for them all.
    A function returns a value or panics when it is called. */
module Race {
  import opened Options

  datatype Call = Returns(value: nat) | Panic(error: nat)

  datatype Outcome = Value(value: nat) | Failed(error: Error)

  datatype Error = Panicked(error: nat) | NoFunctions | NoneProduced

  // ---------------------------------------------------------------- the result cell

  /** sync.Once: the first delivery stays. */
  function Deliver(cell: Option<Outcome>, o: Outcome): (after: Option<Outcome>)
    ensures after.Some? && (cell.Some? ==> after == cell)
  {
    if cell.Some? then cell else Some(o)
  }

  class Result {
    var cell: Option<Outcome>

    constructor ()
      ensures cell == None
    {
      cell := None;
    }

    /** Delivers, and says whether this call was the first to. */
    method Complete(value: nat, err: Option<Error>) returns (won: bool)
      modifies this
      ensures cell == Deliver(old(cell), if err.Some? then Failed(err.value) else Value(value))
      ensures won <==> old(cell) == None
    {
      won := false;
      if cell.None? {
        cell := Some(if err.Some? then Failed(err.value) else Value(value));
        won := true;
      }
    }

    method Fail(err: Error) returns (won: bool)
      modifies this
      ensures cell == Deliver(old(cell), Failed(err))
      ensures won <==> old(cell) == None
    {
      won := Complete(0, Some(err));
    }
  }

  // ---------------------------------------------------------------- the step system

  datatype Worker =
    | Begin
    | Calling
    | Got(value: nat)
    | Won
    | Told
    | Recovering(error: nat)
    | Leaving
    | Gone

  datatype Supervisor = Waiting | Looked(won: bool) | Read(panic: Option<nat>) | Cancelling | Ended

  datatype State = State(
    workers: seq<Worker>, supervisor: Supervisor, cell: Option<Outcome>, won: bool, cancelled: bool, panic: Option<nat>)

  datatype Event = Work(i: nat) | Supervise

  /** Race with no functions fails its result at once and starts nothing. */
  function Init(n: nat): State {
    if n == 0 then State([], Ended, Some(Failed(NoFunctions)), false, false, None)
    else State(seq(n, i => Begin), Waiting, None, false, false, None)
  }

  predicate Enabled(s: State, e: Event) {
    match e
    case Work(i) => i < |s.workers| && !s.workers[i].Gone?
    case Supervise =>
      && !s.supervisor.Ended?
      && (s.supervisor.Waiting? ==> forall i :: 0 <= i < |s.workers| ==> s.workers[i].Gone?)
  }

  function ApplyWork(calls: seq<Call>, s: State, i: nat): State
    requires |s.workers| == |calls| && i < |calls|
  {
    match s.workers[i]
    case Begin => s.(workers := s.workers[i := if s.cancelled then Leaving else Calling])
    case Calling =>
      s.(workers := s.workers[i := if calls[i].Returns? then Got(calls[i].value) else Recovering(calls[i].error)])
    case Got(v) =>
      s.(cell := Deliver(s.cell, Value(v)), workers := s.workers[i := if s.cell.None? then Won else Leaving])
    case Won => s.(won := true, workers := s.workers[i := Told])
    case Told => s.(cancelled := true, workers := s.workers[i := Leaving])
    case Recovering(e) => s.(panic := if s.panic.None? then Some(e) else s.panic, workers := s.workers[i := Leaving])
    case Leaving => s.(workers := s.workers[i := Gone])
    case Gone => s
  }

  function ApplySupervise(s: State): State {
    match s.supervisor
    case Waiting => s.(supervisor := Looked(s.won))
    case Looked(won) => s.(supervisor := if won then Cancelling else Read(s.panic))
    case Read(p) =>
      s.(cell := Deliver(s.cell, Failed(if p.Some? then Panicked(p.value) else NoneProduced)), supervisor := Cancelling)
    case Cancelling => s.(cancelled := true, supervisor := Ended)
    case Ended => s
  }

  function Apply(calls: seq<Call>, s: State, e: Event): (t: State)
    requires |s.workers| == |calls|
    ensures |t.workers| == |calls|
  {
    match e
    case Work(i) => if i < |calls| then ApplyWork(calls, s, i) else s
    case Supervise => ApplySupervise(s)
  }

  ghost predicate Legal(calls: seq<Call>, s: State, run: seq<Event>)
    requires |s.workers| == |calls|
    decreases |run|
  {
    run == [] || (Enabled(s, run[0]) && Legal(calls, Apply(calls, s, run[0]), run[1..]))
  }

  function Exec(calls: seq<Call>, s: State, run: seq<Event>): (t: State)
    requires |s.workers| == |calls|
    ensures |t.workers| == |calls|
    decreases |run|
  {
    if run == [] then s else Exec(calls, Apply(calls, s, run[0]), run[1..])
  }

  // ---------------------------------------------------------------- what every step keeps

  predicate AllPanic(calls: seq<Call>) {
    forall i :: 0 <= i < |calls| ==> calls[i].Panic?
  }

  predicate SomeReturns(calls: seq<Call>, v: nat) {
    exists i :: 0 <= i < |calls| && calls[i] == Returns(v)
  }

  predicate SomePanics(calls: seq<Call>, e: nat) {
    exists i :: 0 <= i < |calls| && calls[i] == Panic(e)
  }

  /** A worker's phase agrees with what its function does, and with the cell. */
  ghost predicate WorkerInv(calls: seq<Call>, s: State, i: nat)
    requires |s.workers| == |calls| && i < |calls|
  {
    match s.workers[i]
    case Begin => true
    case Calling => true
    case Got(v) => calls[i] == Returns(v)
    case Won => s.cell.Some? && s.cell.value.Value?
    case Told => s.won
    case Recovering(e) => calls[i] == Panic(e)
    case Leaving => s.cell.Some? || (calls[i].Panic? && s.panic.Some?)
    case Gone => s.cell.Some? || (calls[i].Panic? && s.panic.Some?)
  }

  /** A value in the cell is announced, or its worker is about to. */
  ghost predicate WinnerKnown(s: State) {
    s.cell.Some? && s.cell.value.Value? ==> s.won || exists i :: 0 <= i < |s.workers| && s.workers[i].Won?
  }

  ghost predicate CellInv(calls: seq<Call>, s: State) {
    && (s.cell.Some? && s.cell.value.Value? ==> SomeReturns(calls, s.cell.value.value))
    && (s.cell.Some? && s.cell.value.Failed? ==>
          AllPanic(calls) && (if calls == [] then s.cell.value.error == NoFunctions
                              else s.cell.value.error.Panicked? && SomePanics(calls, s.cell.value.error.error)))
    && (s.won ==> s.cell.Some? && s.cell.value.Value?)
    && (s.cancelled ==> s.cell.Some?)
    && (s.panic.Some? ==> SomePanics(calls, s.panic.value))
  }

  ghost predicate SupervisorInv(calls: seq<Call>, s: State) {
    && (!s.supervisor.Waiting? ==> forall i :: 0 <= i < |s.workers| ==> s.workers[i].Gone?)
    && match s.supervisor
       case Waiting => calls != []
       case Looked(won) => calls != [] && won == s.won
       case Read(p) => calls != [] && !s.won && p == s.panic
       case Cancelling => s.cell.Some?
       case Ended => s.cell.Some?
  }

  ghost predicate Inv(calls: seq<Call>, s: State) {
    && |s.workers| == |calls|
    && (forall i :: 0 <= i < |calls| ==> WorkerInv(calls, s, i))
    && WinnerKnown(s) && CellInv(calls, s) && SupervisorInv(calls, s)
  }

  lemma WorkKeeps(calls: seq<Call>, s: State, i: nat)
    requires Inv(calls, s) && i < |calls| && Enabled(s, Work(i))
    ensures Inv(calls, ApplyWork(calls, s, i))
  {
    var t := ApplyWork(calls, s, i);
    assert s.supervisor.Waiting?;
    forall j | 0 <= j < |calls|
      ensures WorkerInv(calls, t, j)
    {
      assert WorkerInv(calls, s, j);
    }
    assert WorkerInv(calls, s, i);
    if t.cell.Some? && t.cell.value.Value? && !t.won {
      if s.workers[i].Got? && s.cell.None? {
        assert t.workers[i].Won?;
      } else {
        var k :| 0 <= k < |s.workers| && s.workers[k].Won?;
        assert t.workers[k].Won?;
      }
    }
  }

  /** With every worker gone and no winner, every function panicked and one panic was recorded. */
  lemma NoWinner(calls: seq<Call>, s: State)
    requires Inv(calls, s) && !s.supervisor.Waiting? && !s.won && s.cell.None? && calls != []
    ensures AllPanic(calls) && s.panic.Some?
  {
    assert WorkerInv(calls, s, 0);
    forall i | 0 <= i < |calls|
      ensures calls[i].Panic?
    {
      assert WorkerInv(calls, s, i);
    }
  }

  lemma SuperviseKeeps(calls: seq<Call>, s: State)
    requires Inv(calls, s) && Enabled(s, Supervise)
    ensures Inv(calls, ApplySupervise(s))
  {
    var t := ApplySupervise(s);
    if s.supervisor.Read? && s.cell.None? {
      NoWinner(calls, s);
    }
    forall j | 0 <= j < |calls|
      ensures WorkerInv(calls, t, j)
    {
      assert WorkerInv(calls, s, j);
    }
  }

  lemma {:induction false} RunKeeps(calls: seq<Call>, s: State, run: seq<Event>)
    requires Inv(calls, s) && Legal(calls, s, run)
    ensures Inv(calls, Exec(calls, s, run))
    ensures s.cell.Some? ==> Exec(calls, s, run).cell == s.cell
    decreases |run|
  {
    if run != [] {
      if run[0].Work? {
        WorkKeeps(calls, s, run[0].i);
      } else {
        SuperviseKeeps(calls, s);
      }
      RunKeeps(calls, Apply(calls, s, run[0]), run[1..]);
    }
  }

  lemma InitInv(calls: seq<Call>)
    ensures Inv(calls, Init(|calls|))
  {
  }

  // ---------------------------------------------------------------- every schedule

  /** Whatever is delivered is a value some function returned, or an error that means no function returned one: the
      panic of one of them, or that there were none. */
  lemma OutcomeIsFair(calls: seq<Call>, run: seq<Event>)
    requires Legal(calls, Init(|calls|), run)
    ensures var cell := Exec(calls, Init(|calls|), run).cell;
      cell.Some? ==>
        match cell.value
        case Value(v) => SomeReturns(calls, v)
        case Failed(NoFunctions) => calls == []
        case Failed(Panicked(e)) => AllPanic(calls) && SomePanics(calls, e)
        case Failed(NoneProduced) => false
  {
    InitInv(calls);
    RunKeeps(calls, Init(|calls|), run);
  }

  /** A delivered outcome never changes: cutting a schedule anywhere, what was delivered by then is what is delivered in
      the end. */
  lemma {:induction false} OutcomeStays(calls: seq<Call>, run: seq<Event>, more: seq<Event>)
    requires Legal(calls, Init(|calls|), run)
    requires Legal(calls, Exec(calls, Init(|calls|), run), more)
    ensures var s := Exec(calls, Init(|calls|), run);
      s.cell.Some? ==> Exec(calls, s, more).cell == s.cell
  {
    InitInv(calls);
    RunKeeps(calls, Init(|calls|), run);
    RunKeeps(calls, Exec(calls, Init(|calls|), run), more);
  }

  /** The error delivered is the recorded panic. */
  ghost predicate PanicDelivered(calls: seq<Call>, s: State) {
    calls != [] && s.cell.Some? && s.cell.value.Failed? ==>
      s.panic.Some? && s.cell.value == Failed(Panicked(s.panic.value))
  }

  predicate Winning(w: Worker) {
    w.Won? || w.Told?
  }

  /** At most one worker is between delivering and cancelling. */
  ghost predicate OneWinner(s: State) {
    forall i, j :: 0 <= i < j < |s.workers| ==> !Winning(s.workers[i]) || !Winning(s.workers[j])
  }

  /** A winner means the cell is full. */
  ghost predicate WinnersDelivered(s: State) {
    forall i :: 0 <= i < |s.workers| && Winning(s.workers[i]) ==> s.cell.Some?
  }

  lemma WinnerStarts(calls: seq<Call>, s: State, i: nat)
    requires |s.workers| == |calls| && i < |calls| && WinnersDelivered(s)
    ensures var t := ApplyWork(calls, s, i);
      && t.workers == s.workers[i := t.workers[i]] && (s.cell.Some? ==> t.cell.Some?)
      && (Winning(t.workers[i]) ==> t.cell.Some? && (Winning(s.workers[i]) || s.cell.None?))
  {
  }

  lemma WinnersKept(calls: seq<Call>, s: State, e: Event)
    requires |s.workers| == |calls| && OneWinner(s) && WinnersDelivered(s)
    ensures OneWinner(Apply(calls, s, e)) && WinnersDelivered(Apply(calls, s, e))
  {
    if e.Work? && e.i < |calls| {
      WinnerStarts(calls, s, e.i);
    } else {
      assert Apply(calls, s, e).workers == s.workers;
    }
  }

  lemma PanicKept(calls: seq<Call>, s: State, e: Event)
    requires Inv(calls, s) && Enabled(s, e) && PanicDelivered(calls, s)
    ensures var t := Apply(calls, s, e); PanicDelivered(calls, t) && (s.panic.Some? ==> t.panic == s.panic)
  {
    if e.Supervise? && s.supervisor.Read? && s.cell.None? {
      NoWinner(calls, s);
    }
  }

  lemma {:induction false} FirstsOverRun(calls: seq<Call>, s: State, run: seq<Event>)
    requires Inv(calls, s) && Legal(calls, s, run) && PanicDelivered(calls, s) && OneWinner(s) && WinnersDelivered(s)
    ensures var t := Exec(calls, s, run);
      && PanicDelivered(calls, t) && OneWinner(t) && WinnersDelivered(t)
      && (s.panic.Some? ==> t.panic == s.panic)
    decreases |run|
  {
    if run != [] {
      if run[0].Work? {
        WorkKeeps(calls, s, run[0].i);
      } else {
        SuperviseKeeps(calls, s);
      }
      WinnersKept(calls, s, run[0]);
      PanicKept(calls, s, run[0]);
      FirstsOverRun(calls, Apply(calls, s, run[0]), run[1..]);
    }
  }

  /** The first panic recorded stays the recorded one, and if an error is delivered it is that one; and at no instant do
      two functions both count as the winner. */
  lemma FirstPanicIsDelivered(calls: seq<Call>, run: seq<Event>, more: seq<Event>)
    requires calls != [] && Legal(calls, Init(|calls|), run)
    requires Legal(calls, Exec(calls, Init(|calls|), run), more)
    ensures var s := Exec(calls, Init(|calls|), run);
      var t := Exec(calls, s, more);
      && OneWinner(s)
      && (s.panic.Some? ==> t.panic == s.panic)
      && (s.panic.Some? && t.cell.Some? && t.cell.value.Failed? ==> t.cell.value == Failed(Panicked(s.panic.value)))
  {
    InitInv(calls);
    RunKeeps(calls, Init(|calls|), run);
    FirstsOverRun(calls, Init(|calls|), run);
    FirstsOverRun(calls, Exec(calls, Init(|calls|), run), more);
  }

  /** Steps a worker and the supervisor still have at most. */
  function StepsLeft(w: Worker): nat {
    match w
    case Begin => 6
    case Calling => 5
    case Got(_) => 4
    case Won => 3
    case Told => 2
    case Recovering(_) => 2
    case Leaving => 1
    case Gone => 0
  }

  function AllLeft(ws: seq<Worker>): nat {
    if ws == [] then 0 else StepsLeft(ws[0]) + AllLeft(ws[1..])
  }

  function Left(s: State): nat {
    AllLeft(s.workers)
    + match s.supervisor case Waiting => 4 case Looked(_) => 3 case Read(_) => 2 case Cancelling => 1 case Ended => 0
  }

  lemma {:induction false} AllLeftMoves(ws: seq<Worker>, i: nat, w: Worker)
    requires i < |ws|
    ensures AllLeft(ws[i := w]) + StepsLeft(ws[i]) == AllLeft(ws) + StepsLeft(w)
  {
    if i == 0 {
      assert ws[0 := w][1..] == ws[1..];
    } else {
      AllLeftMoves(ws[1..], i - 1, w);
      assert ws[i := w][1..] == ws[1..][i - 1 := w];
    }
  }

  lemma StepCounts(calls: seq<Call>, s: State, e: Event)
    requires |s.workers| == |calls| && Enabled(s, e)
    ensures Left(Apply(calls, s, e)) < Left(s)
  {
    if e.Work? {
      AllLeftMoves(s.workers, e.i, ApplyWork(calls, s, e.i).workers[e.i]);
      assert ApplyWork(calls, s, e.i).workers == s.workers[e.i := ApplyWork(calls, s, e.i).workers[e.i]];
    }
  }

  /** Every schedule ends, only with the supervisor ended, and then exactly one outcome has been delivered: an error if
      every function panicked, and otherwise a value. */
  lemma {:induction false} RaceSettles(calls: seq<Call>, run: seq<Event>)
    requires Legal(calls, Init(|calls|), run)
    ensures var s := Exec(calls, Init(|calls|), run);
      && (s.supervisor.Ended? || exists e :: Enabled(s, e))
      && (s.supervisor.Ended? ==> s.cell.Some? && (s.cell.value.Failed? <==> AllPanic(calls)))
  {
    InitInv(calls);
    RunKeeps(calls, Init(|calls|), run);
    var s := Exec(calls, Init(|calls|), run);
    if s.supervisor.Waiting? && exists i :: 0 <= i < |calls| && !s.workers[i].Gone? {
      var i :| 0 <= i < |calls| && !s.workers[i].Gone?;
      assert Enabled(s, Work(i));
    } else if !s.supervisor.Ended? {
      assert Enabled(s, Supervise);
    }
  }

  lemma {:induction false} RunsAreBounded(calls: seq<Call>, s: State, run: seq<Event>)
    requires |s.workers| == |calls| && Legal(calls, s, run)
    ensures |run| + Left(Exec(calls, s, run)) <= Left(s)
    decreases |run|
  {
    if run != [] {
      StepCounts(calls, s, run[0]);
      RunsAreBounded(calls, Apply(calls, s, run[0]), run[1..]);
    }
  }

  // ---------------------------------------------------------------- losers are cancelled

  /** The context is cancelled once a winner has told, or the winner is about to, and when the supervisor has ended. */
  ghost predicate CancelInv(s: State) {
    && (s.won ==> s.cancelled || exists i :: 0 <= i < |s.workers| && s.workers[i].Told?)
    && (s.supervisor.Ended? && s.workers != [] ==> s.cancelled)
  }

  lemma CancelKept(calls: seq<Call>, s: State, e: Event)
    requires |s.workers| == |calls| && CancelInv(s) && Enabled(s, e)
    ensures CancelInv(Apply(calls, s, e)) && (s.cancelled ==> Apply(calls, s, e).cancelled)
  {
    var t := Apply(calls, s, e);
    if e.Work? && s.workers[e.i].Won? {
      assert t.workers[e.i].Told?;
    } else if s.won && !t.cancelled {
      var k :| 0 <= k < |s.workers| && s.workers[k].Told?;
      assert t.workers[k].Told?;
    }
  }

  /** While the context is cancelled a goroutine that has not begun never calls its function. */
  ghost predicate Spared(s: State, i: nat) {
    i < |s.workers| && s.cancelled && (s.workers[i].Begin? || s.workers[i].Leaving? || s.workers[i].Gone?)
  }

  lemma {:induction false} CancelledRun(calls: seq<Call>, s: State, run: seq<Event>)
    requires |s.workers| == |calls| && CancelInv(s) && Legal(calls, s, run)
    ensures CancelInv(Exec(calls, s, run))
    ensures forall i | Spared(s, i) :: Spared(Exec(calls, s, run), i)
    decreases |run|
  {
    if run != [] {
      CancelKept(calls, s, run[0]);
      CancelledRun(calls, Apply(calls, s, run[0]), run[1..]);
    }
  }

  /** Under every schedule, once a value was delivered and its goroutine has gone the context is cancelled, and so it is
      when the supervisor ends; from then on a function not yet called is never called. */
  lemma LosersAreCancelled(calls: seq<Call>, run: seq<Event>, more: seq<Event>, i: nat)
    requires Legal(calls, Init(|calls|), run) && Legal(calls, Exec(calls, Init(|calls|), run), more)
    ensures var s := Exec(calls, Init(|calls|), run);
      && (s.won && (forall k :: 0 <= k < |calls| ==> !s.workers[k].Told?) ==> s.cancelled)
      && (s.supervisor.Ended? && calls != [] ==> s.cancelled)
      && (s.cancelled && i < |calls| && s.workers[i].Begin? ==> !Exec(calls, s, more).workers[i].Calling?)
  {
    CancelledRun(calls, Init(|calls|), run);
    CancelledRun(calls, Exec(calls, Init(|calls|), run), more);
    assert Spared(Exec(calls, Init(|calls|), run), i) ==> Spared(Exec(calls, Exec(calls, Init(|calls|), run), more), i);
  }
}
