/**
 * The command executor of `main` in src/main.rs: the list it loads, owns and
 * changes in place, one method per subcommand, and one run of the program
 * from load to save.
 */
module TodoCli {
  import opened DecimalText
  import opened TodoModel

  /** The `Vec<Todo>` that `main` holds for the length of one invocation. */
  class Session {
    var todos: seq<Todo>

    /** `load_data().unwrap_or_default()`: the stored list, or the empty list when loading failed. */
    constructor (load: Loaded)
      ensures load.Loaded? ==> todos == load.todos
      ensures load.LoadFailed? ==> todos == []
    {
      todos := InitialTodos(load);
    }

    /** `add`: pushes an incomplete todo, prints nothing and asks for a save. */
    method Add(description: string) returns (lines: seq<Line>, save: bool)
      modifies this
      ensures |todos| == |old(todos)| + 1
      ensures todos[..|old(todos)|] == old(todos)
      ensures todos[|old(todos)|] == Todo(description, false)
      ensures lines == [] && save
    {
      todos := todos + [Todo(description, false)];
      lines, save := [], true;
    }

    /** `remove`: with an existing index, takes that todo out, shifting the later
        ones down, echoes it and asks for a save; otherwise reports the missing
        task on standard error and changes nothing. */
    method Remove(index: nat) returns (lines: seq<Line>, save: bool)
      modifies this
      ensures save <==> index < |old(todos)|
      ensures save ==> && |todos| == |old(todos)| - 1
                       && todos[..index] == old(todos)[..index]
                       && todos[index..] == old(todos)[index + 1..]
                       && lines == [RemovedEcho(old(todos)[index])]
      ensures !save ==> todos == old(todos) && lines == [Err(MissingTaskLine(index))]
    {
      if index < |todos| {
        var removed := todos[index];
        todos := todos[..index] + todos[index + 1..];
        lines, save := [RemovedEcho(removed)], true;
      } else {
        lines, save := [Err(MissingTaskLine(index))], false;
      }
    }

    /** `list`: one line per todo in index order, `{i}: {description} [x]` for a
        completed one and `{i}: {description} [ ]` otherwise. It has no
        `modifies` clause, so the list is left as it was, and it asks for no save. */
    method List() returns (lines: seq<Line>)
      ensures |lines| == |todos|
      ensures forall k :: 0 <= k < |todos| ==> lines[k] == Out(EntryLine(k, todos[k]))
    {
      lines := [];
      for i := 0 to |todos|
        invariant |lines| == i
        invariant forall k :: 0 <= k < i ==> lines[k] == Out(EntryLine(k, todos[k]))
      {
        var status := if todos[i].completed then "[x]" else "[ ]";
        lines := lines + [Out(Decimal(i) + ": " + todos[i].description + " " + status)];
      }
    }

    /** `complete`: with an existing index, sets that todo's flag, prints its
        description and asks for a save; otherwise reports the missing task on
        standard error and changes nothing. */
    method Complete(index: nat) returns (lines: seq<Line>, save: bool)
      modifies this
      ensures save <==> index < |old(todos)|
      ensures save ==> && |todos| == |old(todos)|
                       && todos[index] == Todo(old(todos)[index].description, true)
                       && (forall k :: 0 <= k < |todos| && k != index ==> todos[k] == old(todos)[k])
                       && lines == [Out(CompletedLine(old(todos)[index].description))]
      ensures !save ==> todos == old(todos) && lines == [Err(MissingTaskLine(index))]
    {
      if index < |todos| {
        todos := todos[index := todos[index].(completed := true)];
        lines, save := [Out(CompletedLine(todos[index].description))], true;
      } else {
        lines, save := [Err(MissingTaskLine(index))], false;
      }
    }

    /** The `match` of `main`: runs the method of the command and does what Step says. */
    method Execute(cmd: Command) returns (lines: seq<Line>, save: bool)
      modifies this
      ensures Effect(todos, lines, save) == Step(old(todos), cmd)
    {
      match cmd
      case Add(description) =>
        lines, save := Add(description);
      case Remove(index) =>
        lines, save := Remove(index);
        assert save ==> todos == old(todos)[..index] + old(todos)[index + 1..];
      case List =>
        lines := List();
        save := false;
      case Complete(index) =>
        lines, save := Complete(index);
        assert save ==> todos == old(todos)[index := old(todos)[index].(completed := true)];
    }
  }

  /** One invocation: load (or fall back to the empty list), run the command,
      and hand the list to the store exactly when the command asked for a save. */
  method Run(load: Loaded, cmd: Command) returns (lines: seq<Line>, saved: Option<seq<Todo>>)
    ensures var e := Step(InitialTodos(load), cmd);
            && lines == e.lines
            && (saved.Some? <==> WritesList(InitialTodos(load), cmd))
            && (saved.Some? ==> saved.value == e.todos)
  {
    var session := new Session(load);
    var save;
    lines, save := session.Execute(cmd);
    saved := if save then Some(session.todos) else None;
    SaveExactlyWhenWritten(InitialTodos(load), cmd);
  }

  /** A run whose load failed starts from the empty list, so a command that
      writes the list then saves a list built from nothing: an add stores its one new todo
      in place of whatever the store held. */
  lemma FailedLoadStartsEmpty(cmd: Command, description: string)
    ensures var e := Step(InitialTodos(LoadFailed), cmd);
            && (cmd.Remove? || cmd.Complete? ==> !e.save && e.todos == [])
            && (cmd == List ==> e.lines == [])
            && (cmd == Add(description) ==> e.save && e.todos == [Todo(description, false)])
  {
  }
}
