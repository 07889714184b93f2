/** The middleware fold of pipeline/pipeline.go. */
module Pipeline {

  /** A command: the type reflection sees, and the rest of it. */
  datatype Command = Command(kind: nat, value: nat)

  type Handler = Command -> nat

  type Stage = (Command, Handler) -> nat

  function Enter(stage: Stage, next: Handler): Handler {
    command => stage(command, next)
  }

  /** The stages around the destination, the first outermost. */
  function Fold(stages: seq<Stage>, destination: Handler): Handler {
    if stages == [] then destination else Enter(stages[0], Fold(stages[1..], destination))
  }

  /** Build: the loop that wraps from the last stage to the first. */
  method Build(stages: seq<Stage>, destination: Handler) returns (h: Handler)
    ensures h == Fold(stages, destination)
  {
    h := destination;
    var i := |stages|;
    while i > 0
      invariant 0 <= i <= |stages|
      invariant h == Fold(stages[i..], destination)
    {
      i := i - 1;
      assert stages[i..][1..] == stages[i + 1..] && stages[i..][0] == stages[i];
      h := Enter(stages[i], h);
    }
    assert stages[0..] == stages;
  }

  /** Stages added later sit inside those already there. */
  lemma {:induction false} AddedStagesSitInside(outer: seq<Stage>, inner: seq<Stage>, destination: Handler)
    ensures Fold(outer + inner, destination) == Fold(outer, Fold(inner, destination))
  {
    if outer == [] {
      assert outer + inner == inner;
    } else {
      AddedStagesSitInside(outer[1..], inner, destination);
      assert (outer + inner)[1..] == outer[1..] + inner;
    }
  }

  /** Given command, the stage calls the next with onward and, when that answers inner, answers outer itself. What it
      does with other commands or answers is open. */
  ghost predicate Passes(stage: Stage, command: Command, onward: Command, inner: nat, outer: nat) {
    forall next: Handler | next(onward) == inner :: stage(command, next) == outer
  }

  /** Given command, the stage answers without calling the next. */
  ghost predicate Stops(stage: Stage, command: Command, answer: nat) {
    forall next: Handler :: stage(command, next) == answer
  }

  /** A walk in and out: commands[k] is what stage k was given and results[k] what it answered. The last to be given one
      is a stage that stopped, or the destination. */
  ghost predicate Walk(stages: seq<Stage>, destination: Handler, commands: seq<Command>, results: seq<nat>) {
    var last := |commands| - 1;
    && 0 <= last <= |stages| && |results| == |commands|
    && (forall k :: 0 <= k < last ==> Passes(stages[k], commands[k], commands[k + 1], results[k + 1], results[k]))
    && if last < |stages| then Stops(stages[last], commands[last], results[last])
       else destination(commands[last]) == results[last]
  }

  /** What a walk answers is what the fold answers, wherever it turned and whatever the stages made of the command on
      the way in and of the answer on the way out. */
  lemma {:induction false} WalkIsFold(stages: seq<Stage>, destination: Handler, commands: seq<Command>,
                                      results: seq<nat>)
    requires Walk(stages, destination, commands, results)
    ensures Fold(stages, destination)(commands[0]) == results[0]
  {
    if |commands| > 1 {
      var rest, commands', results' := stages[1..], commands[1..], results[1..];
      forall k | 0 <= k < |commands'| - 1
        ensures Passes(rest[k], commands'[k], commands'[k + 1], results'[k + 1], results'[k])
      {
        assert Passes(stages[k + 1], commands[k + 1], commands[k + 2], results[k + 2], results[k + 1]);
      }
      WalkIsFold(rest, destination, commands', results');
      assert Passes(stages[0], commands[0], commands[1], results[1], results[0]);
    } else if stages != [] {
      assert Stops(stages[0], commands[0], results[0]);
    }
  }
}
