/** CommandManager (src/app/core/application/services/command-manager.ts): undo and redo over
    two stacks of commands. A command is any value; running or reverting it is a call into code
    outside this model, recorded here as an effect in order. */
module CommandManagers {

  /** The two stacks; the top of each is its last element. */
  datatype Stacks<C> = Stacks(undo: seq<C>, redo: seq<C>)

  /** A call into a command: `execute()` or `undo()`. */
  datatype Effect<C> = Executed(command: C) | Reverted(command: C)

  /** After `execute(c)`: c is on top of the undo stack and nothing can be redone. */
  function AfterExecute<C>(s: Stacks<C>, c: C): (t: Stacks<C>)
    ensures |t.undo| == |s.undo| + 1 && t.undo[|s.undo|] == c && t.undo[..|s.undo|] == s.undo
    ensures t.redo == []
  {
    Stacks(s.undo + [c], [])
  }

  /** After `undo()`: the top of the undo stack moves onto the redo stack; with nothing to undo
      the stacks stay as they are. */
  function AfterUndo<C>(s: Stacks<C>): (t: Stacks<C>)
    ensures |s.undo| == 0 ==> t == s
    ensures |s.undo| > 0 ==> |t.undo| == |s.undo| - 1 && s.undo[..|t.undo|] == t.undo
    ensures |s.undo| > 0 ==> |t.redo| == |s.redo| + 1 && t.redo[..|s.redo|] == s.redo && t.redo[|s.redo|] == s.undo[|s.undo| - 1]
  {
    if |s.undo| == 0 then s
    else Stacks(s.undo[..|s.undo| - 1], s.redo + [s.undo[|s.undo| - 1]])
  }

  /** After `redo()`: the top of the redo stack moves back onto the undo stack; with nothing to
      redo the stacks stay as they are. */
  function AfterRedo<C>(s: Stacks<C>): (t: Stacks<C>)
    ensures |s.redo| == 0 ==> t == s
    ensures |s.redo| > 0 ==> |t.redo| == |s.redo| - 1 && s.redo[..|t.redo|] == t.redo
    ensures |s.redo| > 0 ==> |t.undo| == |s.undo| + 1 && t.undo[..|s.undo|] == s.undo && t.undo[|s.undo|] == s.redo[|s.redo| - 1]
  {
    if |s.redo| == 0 then s
    else Stacks(s.undo + [s.redo[|s.redo| - 1]], s.redo[..|s.redo| - 1])
  }

  /** Undo followed by redo restores both stacks when there was something to undo, and redo
      followed by undo does when there was something to redo. */
  lemma UndoRedoRoundTrip<C>(s: Stacks<C>)
    ensures |s.undo| > 0 ==> AfterRedo(AfterUndo(s)) == s
    ensures |s.redo| > 0 ==> AfterUndo(AfterRedo(s)) == s
  {
    if |s.undo| > 0 {
      assert s.undo[..|s.undo| - 1] + [s.undo[|s.undo| - 1]] == s.undo;
    }
    if |s.redo| > 0 {
      assert s.redo[..|s.redo| - 1] + [s.redo[|s.redo| - 1]] == s.redo;
    }
  }

  /** Undo and redo move commands between the stacks without losing or adding any. */
  lemma UndoRedoKeepCommands<C>(s: Stacks<C>)
    ensures |AfterUndo(s).undo| + |AfterUndo(s).redo| == |s.undo| + |s.redo|
    ensures |AfterRedo(s).undo| + |AfterRedo(s).redo| == |s.undo| + |s.redo|
    ensures multiset(AfterUndo(s).undo) + multiset(AfterUndo(s).redo) == multiset(s.undo) + multiset(s.redo)
    ensures multiset(AfterRedo(s).undo) + multiset(AfterRedo(s).redo) == multiset(s.undo) + multiset(s.redo)
  {
    if |s.undo| > 0 {
      MoveTopKeepsCommands(s.undo, s.redo);
    }
    if |s.redo| > 0 {
      MoveTopKeepsCommands(s.redo, s.undo);
    }
  }

  /** Moving the top of one stack onto another keeps the commands of both together. */
  lemma MoveTopKeepsCommands<C>(from: seq<C>, to: seq<C>)
    requires |from| > 0
    ensures multiset(from[..|from| - 1]) + multiset(to + [from[|from| - 1]]) == multiset(from) + multiset(to)
    ensures multiset(to + [from[|from| - 1]]) + multiset(from[..|from| - 1]) == multiset(to) + multiset(from)
  {
    assert from == from[..|from| - 1] + [from[|from| - 1]];
  }

  /** Executing a command and undoing it leaves the earlier undo history and an empty redo
      stack holding just that command. */
  lemma ExecuteThenUndo<C>(s: Stacks<C>, c: C)
    ensures AfterUndo(AfterExecute(s, c)) == Stacks(s.undo, [c])
  {
  }

  class CommandManager<C> {
    var undoStack: seq<C>
    var redoStack: seq<C>
    /** The calls made into commands so far. */
    var effects: seq<Effect<C>>

    constructor()
      ensures undoStack == [] && redoStack == [] && effects == []
    {
      undoStack := [];
      redoStack := [];
      effects := [];
    }

    function State(): Stacks<C>
      reads this
    {
      Stacks(undoStack, redoStack)
    }

    /** `execute(command)`: runs the command, then pushes it and empties the redo stack. */
    method Execute(command: C)
      modifies this
      ensures State() == AfterExecute(old(State()), command)
      ensures effects == old(effects) + [Executed(command)]
    {
      effects := effects + [Executed(command)];
      undoStack := undoStack + [command];
      redoStack := [];
    }

    /** `undo()`: reverts the most recent command and moves it to the redo stack; does nothing
        when there is nothing to undo. */
    method Undo()
      modifies this
      ensures State() == AfterUndo(old(State()))
      ensures effects == if |old(undoStack)| == 0 then old(effects) else old(effects) + [Reverted(old(undoStack)[|old(undoStack)| - 1])]
    {
      if |undoStack| == 0 {
        return;
      }
      var command := undoStack[|undoStack| - 1];
      undoStack := undoStack[..|undoStack| - 1];
      effects := effects + [Reverted(command)];
      redoStack := redoStack + [command];
    }

    /** `redo()`: runs the most recently undone command again and moves it back to the undo
        stack; does nothing when there is nothing to redo. */
    method Redo()
      modifies this
      ensures State() == AfterRedo(old(State()))
      ensures effects == if |old(redoStack)| == 0 then old(effects) else old(effects) + [Executed(old(redoStack)[|old(redoStack)| - 1])]
    {
      if |redoStack| == 0 {
        return;
      }
      var command := redoStack[|redoStack| - 1];
      redoStack := redoStack[..|redoStack| - 1];
      effects := effects + [Executed(command)];
      undoStack := undoStack + [command];
    }

    /** `clear()`: forgets both stacks without calling any command. */
    method Clear()
      modifies this
      ensures undoStack == [] && redoStack == [] && effects == old(effects)
    {
      undoStack := [];
      redoStack := [];
    }
  }
}
