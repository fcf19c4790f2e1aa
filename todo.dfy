/**
 * The todo data model of src/main.rs, the text each command writes to the
 * terminal, and the effect of one command on the loaded list, stated as a
 * function. The class in session.dfy carries out the same effect in place.
 */
module TodoModel {
  import opened DecimalText

  datatype Option<T> = None | Some(value: T)

  /** One todo item: a description and a completion flag. */
  datatype Todo = Todo(description: string, completed: bool)

  /** The four subcommands; a `usize` index is a `nat` (the parser rejects negatives). */
  datatype Command =
    | Add(description: string)
    | Remove(index: nat)
    | List
    | Complete(index: nat)

  /** What loading the store gave: the stored list, or an error of any kind. */
  datatype Loaded = Loaded(todos: seq<Todo>) | LoadFailed

  /** One line written to the terminal. */
  datatype Line =
    | Out(text: string)          // a `println!` line on standard output
    | Err(text: string)          // an `eprintln!` line on standard error
    | RemovedEcho(todo: Todo)    // `println!("Removed: {:?}", todo)`; the Debug layout is not rendered

  /** The list `main` starts from: a failed load is replaced by the empty list. */
  function InitialTodos(load: Loaded): seq<Todo> {
    match load
    case Loaded(todos) => todos
    case LoadFailed => []
  }

  function Marker(completed: bool): string {
    if completed then "[x]" else "[ ]"
  }

  /** The line `list` prints for the todo at position `i`. */
  function EntryLine(i: nat, t: Todo): string {
    Decimal(i) + ": " + t.description + " " + Marker(t.completed)
  }

  /** The line printed for an index that names no todo. */
  function MissingTaskLine(index: nat): string {
    "Error: Task " + Decimal(index) + " doesn't exist"
  }

  /** The line printed after a todo is marked complete. */
  function CompletedLine(description: string): string {
    "Task '" + description + "' marked as complete!"
  }

  /** Everything `list` prints: one line per todo, in index order. */
  function Listing(todos: seq<Todo>): seq<Line> {
    seq(|todos|, k requires 0 <= k < |todos| => Out(EntryLine(k, todos[k])))
  }

  /** The list after a command, the lines it printed, and whether it asked for a save. */
  datatype Effect = Effect(todos: seq<Todo>, lines: seq<Line>, save: bool)

  /** The effect of one command on the loaded list. */
  function Step(todos: seq<Todo>, cmd: Command): Effect {
    match cmd
    case Add(description) =>
      Effect(todos + [Todo(description, false)], [], true)
    case Remove(index) =>
      if index < |todos| then
        Effect(todos[..index] + todos[index + 1..], [RemovedEcho(todos[index])], true)
      else
        Effect(todos, [Err(MissingTaskLine(index))], false)
    case List =>
      Effect(todos, Listing(todos), false)
    case Complete(index) =>
      if index < |todos| then
        Effect(todos[index := todos[index].(completed := true)],
               [Out(CompletedLine(todos[index].description))], true)
      else
        Effect(todos, [Err(MissingTaskLine(index))], false)
  }

  /** The branches that write the list back to the store: add, and remove or
      complete of an existing index (completing a todo that is already complete
      writes it back too, although the list is then the same). */
  predicate WritesList(todos: seq<Todo>, cmd: Command) {
    || cmd.Add?
    || (cmd.Remove? && cmd.index < |todos|)
    || (cmd.Complete? && cmd.index < |todos|)
  }

  /** A save is requested exactly on the branches that write the list, and
      every other branch leaves the list as it was. */
  lemma SaveExactlyWhenWritten(todos: seq<Todo>, cmd: Command)
    ensures Step(todos, cmd).save <==> WritesList(todos, cmd)
    ensures !Step(todos, cmd).save ==> Step(todos, cmd).todos == todos
  {
  }

  /** Add appends one incomplete todo with the given description and keeps every earlier one. */
  lemma AddAppends(todos: seq<Todo>, description: string)
    ensures var r := Step(todos, Add(description)).todos;
            |r| == |todos| + 1 && r[..|todos|] == todos && r[|todos|] == Todo(description, false)
  {
  }

  /** Remove of an existing index keeps the prefix, shifts the rest down by
      one, and drops exactly the removed todo, which it echoes. */
  lemma RemoveShifts(todos: seq<Todo>, index: nat)
    requires index < |todos|
    ensures var e := Step(todos, Remove(index));
            && |e.todos| == |todos| - 1
            && (forall k :: 0 <= k < index ==> e.todos[k] == todos[k])
            && (forall k :: index <= k < |e.todos| ==> e.todos[k] == todos[k + 1])
            && multiset(e.todos) + multiset{todos[index]} == multiset(todos)
            && e.lines == [RemovedEcho(todos[index])]
  {
    assert todos == todos[..index] + [todos[index]] + todos[index + 1..];
  }

  /** Complete of an existing index sets that flag only; descriptions and every other todo are kept. */
  lemma CompleteSetsOnlyThatFlag(todos: seq<Todo>, index: nat)
    requires index < |todos|
    ensures var r := Step(todos, Complete(index)).todos;
            && |r| == |todos|
            && r[index] == Todo(todos[index].description, true)
            && (forall k :: 0 <= k < |todos| && k != index ==> r[k] == todos[k])
  {
  }

  /** Completing the same index twice leaves the list as completing it once. */
  lemma CompleteIdempotent(todos: seq<Todo>, index: nat)
    ensures var once := Step(todos, Complete(index)).todos;
            Step(once, Complete(index)).todos == once
  {
  }

  /** The parts of a text made of a head, `": "` and a tail of at least three characters. */
  lemma ColonSeparatedParts(head: string, tail: string)
    requires |tail| >= 3
    ensures var line := head + (": " + tail); var n := |head|;
            && |line| == n + 2 + |tail|
            && line[..n] == head
            && line[n] == ':'
            && line[n..n + 2] == ": "
            && line[n + 2..] == tail
            && line[|line| - 3..] == tail[|tail| - 3..]
  {
  }

  /** The last three characters of a description, a space and a marker are the marker. */
  lemma MarkerAtEnd(d: string, c: bool)
    ensures var rest := d + " " + Marker(c);
            |rest| >= 4 && rest[|rest| - 3..] == Marker(c)
  {
  }

  /** The listing line of a todo starts with its index and `": "`, and ends with its completion marker. */
  lemma EntryLineShape(i: nat, t: Todo)
    ensures var line := EntryLine(i, t); var n := |Decimal(i)|;
            && n + 6 <= |line|
            && line[..n] == Decimal(i)
            && line[n] == ':'
            && line[n..n + 2] == ": "
            && line[n + 2..] == t.description + " " + Marker(t.completed)
            && (line[|line| - 3..] == "[x]" <==> t.completed)
  {
    var rest := t.description + " " + Marker(t.completed);
    EntryLineSplit(i, t);
    ColonSeparatedParts(Decimal(i), rest);
    MarkerAtEnd(t.description, t.completed);
    assert "[x]"[1] != "[ ]"[1];
  }

  /** Digits never include ':', so the digit run before the first ':' can be told apart. */
  lemma DigitsBeforeColon(a: string, x: string, b: string, y: string)
    requires AllDigits(a) && AllDigits(b)
    requires |x| > 0 && x[0] == ':' && |y| > 0 && y[0] == ':'
    requires a + x == b + y
    ensures a == b && x == y
  {
    var s := a + x;
    var m := if |a| < |b| then |a| else |b|;
    assert s[m] == (a + x)[m] == (b + y)[m];
    assert a == s[..|a|] == b;
    assert x == s[|a|..] == y;
  }

  /** The description and the three-character marker can be told apart from the end. */
  lemma DescriptionAndMarker(d: string, c: bool, e: string, f: bool)
    requires d + " " + Marker(c) == e + " " + Marker(f)
    ensures d == e && c == f
  {
    var s := d + " " + Marker(c);
    assert |d| == |e|;
    assert d == s[..|d|] == e;
    assert Marker(c) == s[|d| + 1..] == Marker(f);
    assert "[x]"[1] != "[ ]"[1];
  }

  /** A listing line is the index digits followed by the text that starts with ':'. */
  lemma EntryLineSplit(i: nat, t: Todo)
    ensures EntryLine(i, t) == Decimal(i) + (": " + (t.description + " " + Marker(t.completed)))
  {
  }

  /** Different todos, or different positions, never print the same listing line:
      the index, the description and the flag can all be read back from it. */
  lemma EntryLineInjective(i: nat, t: Todo, j: nat, u: Todo)
    requires EntryLine(i, t) == EntryLine(j, u)
    ensures i == j && t == u
  {
    var r1 := t.description + " " + Marker(t.completed);
    var r2 := u.description + " " + Marker(u.completed);
    EntryLineSplit(i, t);
    EntryLineSplit(j, u);
    DigitsBeforeColon(Decimal(i), ": " + r1, Decimal(j), ": " + r2);
    DecimalInjective(i, j);
    assert r1 == (": " + r1)[2..] == (": " + r2)[2..] == r2;
    DescriptionAndMarker(t.description, t.completed, u.description, u.completed);
  }

  /** The listing is lossless as a sequence of `println!` calls: two lists that
      make the same calls are the same list. */
  lemma {:induction false} ListingDeterminesTodos(a: seq<Todo>, b: seq<Todo>)
    requires Listing(a) == Listing(b)
    ensures a == b
  {
    assert |a| == |Listing(a)| == |Listing(b)| == |b|;
    forall k | 0 <= k < |a|
      ensures a[k] == b[k]
    {
      assert Listing(a)[k] == Listing(b)[k];
      EntryLineInjective(k, a[k], k, b[k]);
    }
  }

  /** An index that names no todo is reported with its own text: the error
      lines of two different indices differ. */
  lemma {:induction false} MissingTaskLineInjective(m: nat, n: nat)
    requires MissingTaskLine(m) == MissingTaskLine(n)
    ensures m == n
  {
    var prefix, suffix := "Error: Task ", " doesn't exist";
    var line := MissingTaskLine(m);
    assert |Decimal(m)| == |Decimal(n)|;
    assert Decimal(m) == line[|prefix|..|line| - |suffix|] == Decimal(n);
    DecimalInjective(m, n);
  }

  predicate NoLineBreak(s: string) {
    forall k :: 0 <= k < |s| ==> s[k] != '\n'
  }

  /** The text on standard output of a run of `println!` calls: each text followed by a line break. */
  function Printed(texts: seq<string>): string {
    if texts == [] then "" else texts[0] + "\n" + Printed(texts[1..])
  }

  /** The texts of the `println!` calls `list` makes. */
  function EntryLines(todos: seq<Todo>): seq<string> {
    seq(|todos|, k requires 0 <= k < |todos| => EntryLine(k, todos[k]))
  }

  /** The `Out` lines `list` returns carry exactly the texts of `EntryLines`,
      in order, so `ListingText` is what those lines put on standard output. */
  lemma ListingTextOfListing(todos: seq<Todo>)
    ensures var lines := Step(todos, List).lines;
            && |lines| == |EntryLines(todos)| == |todos|
            && (forall k :: 0 <= k < |lines| ==> lines[k] == Out(EntryLines(todos)[k]))
  {
  }

  /** The text `list` writes to standard output. */
  function ListingText(todos: seq<Todo>): string {
    Printed(EntryLines(todos))
  }

  /** A listing line has a line break only where its description has one. */
  lemma EntryLineNoLineBreak(i: nat, t: Todo)
    requires NoLineBreak(t.description)
    ensures NoLineBreak(EntryLine(i, t))
  {
    var line := EntryLine(i, t);
    var n, d := |Decimal(i)|, |t.description|;
    EntryLineSplit(i, t);
    forall k | 0 <= k < |line|
      ensures line[k] != '\n'
    {
      if k < n {
        assert line[k] == Decimal(i)[k];
      } else if k < n + 2 {
        assert line[k] == ": "[k - n];
      } else if k < n + 2 + d {
        assert line[k] == t.description[k - n - 2];
      } else if k == n + 2 + d {
        assert line[k] == ' ';
      } else {
        assert line[k] == Marker(t.completed)[k - n - 3 - d];
      }
    }
  }

  /** Texts without line breaks can be read back from what `println!` wrote. */
  lemma {:induction false} PrintedInjective(xs: seq<string>, ys: seq<string>)
    requires forall i :: 0 <= i < |xs| ==> NoLineBreak(xs[i])
    requires forall i :: 0 <= i < |ys| ==> NoLineBreak(ys[i])
    requires Printed(xs) == Printed(ys)
    ensures xs == ys
    decreases |xs|
  {
    if xs != [] && ys != [] {
      var x, y := xs[0], ys[0];
      var s := Printed(xs);
      assert s == x + ("\n" + Printed(xs[1..])) == y + ("\n" + Printed(ys[1..]));
      var m := if |x| < |y| then |x| else |y|;
      assert s[m] == (x + ("\n" + Printed(xs[1..])))[m] == (y + ("\n" + Printed(ys[1..])))[m];
      assert x == s[..|x|] == y;
      assert Printed(xs[1..]) == s[|x| + 1..] == Printed(ys[1..]);
      PrintedInjective(xs[1..], ys[1..]);
      assert xs == [x] + xs[1..] && ys == [y] + ys[1..];
    }
  }

  /** The text `list` prints is lossless when no description holds a line break:
      two such lists that print the same text are the same list. */
  lemma ListingTextDeterminesTodos(a: seq<Todo>, b: seq<Todo>)
    requires forall k :: 0 <= k < |a| ==> NoLineBreak(a[k].description)
    requires forall k :: 0 <= k < |b| ==> NoLineBreak(b[k].description)
    requires ListingText(a) == ListingText(b)
    ensures a == b
  {
    var xs, ys := EntryLines(a), EntryLines(b);
    forall i | 0 <= i < |xs| ensures NoLineBreak(xs[i]) { EntryLineNoLineBreak(i, a[i]); }
    forall i | 0 <= i < |ys| ensures NoLineBreak(ys[i]) { EntryLineNoLineBreak(i, b[i]); }
    PrintedInjective(xs, ys);
    forall k | 0 <= k < |a|
      ensures a[k] == b[k]
    {
      assert xs[k] == ys[k];
      EntryLineInjective(k, a[k], k, b[k]);
    }
  }

  /** What `list` prints for one todo and for two. */
  lemma ListingTextOfOneAndTwo(t: Todo, u: Todo)
    ensures ListingText([t]) == EntryLine(0, t) + "\n"
    ensures ListingText([t, u]) == EntryLine(0, t) + "\n" + (EntryLine(1, u) + "\n")
  {
    var one, two := EntryLines([t]), EntryLines([t, u]);
    assert one == [EntryLine(0, t)];
    assert two == [EntryLine(0, t), EntryLine(1, u)];
    assert one[1..] == [] && two[1..] == [EntryLine(1, u)] && two[1..][1..] == [];
    assert Printed(one) == EntryLine(0, t) + "\n" + Printed([]);
    assert Printed(two[1..]) == EntryLine(1, u) + "\n" + Printed([]);
  }

  lemma AmbiguousLineOne()
    ensures EntryLine(0, Todo("x [ ]\n1: y", false)) == "0: x [ ]\n1: y [ ]"
  {
    assert Decimal(0) == "0";
    assert EntryLine(0, Todo("x [ ]\n1: y", false)) == "0" + ": " + "x [ ]\n1: y" + " " + "[ ]";
  }

  lemma AmbiguousLinesTwo()
    ensures EntryLine(0, Todo("x", false)) + "\n" + EntryLine(1, Todo("y", false)) == "0: x [ ]\n1: y [ ]"
  {
    assert Decimal(0) == "0" && Decimal(1) == "1";
    assert EntryLine(0, Todo("x", false)) == "0" + ": " + "x" + " " + "[ ]";
    assert EntryLine(1, Todo("y", false)) == "1" + ": " + "y" + " " + "[ ]";
  }

  /** A description holding a line break makes the printed text ambiguous: one
      todo can print what two todos print. */
  lemma ListingTextAmbiguous()
    ensures ListingText([Todo("x [ ]\n1: y", false)])
            == ListingText([Todo("x", false), Todo("y", false)])
            == "0: x [ ]\n1: y [ ]\n"
  {
    ListingTextOfOneAndTwo(Todo("x [ ]\n1: y", false), Todo("y", false));
    ListingTextOfOneAndTwo(Todo("x", false), Todo("y", false));
    AmbiguousLineOne();
    AmbiguousLinesTwo();
  }

  /** The lists of a sample session: two adds on an empty store, then a
      completion of index 0, then a removal of index 1. */
  lemma ExampleSessionLists()
    ensures var s2 := Step(Step([], Add("Buy groceries")).todos, Add("Walk the dog")).todos;
            var s3 := Step(s2, Complete(0)).todos;
            && s2 == [Todo("Buy groceries", false), Todo("Walk the dog", false)]
            && s3 == [Todo("Buy groceries", true), Todo("Walk the dog", false)]
            && Step(s3, Remove(1)).todos == [Todo("Buy groceries", true)]
  {
  }

  /** The listing lines of the sample session's todos, one lemma each. */
  lemma ExampleLineGroceries()
    ensures EntryLine(0, Todo("Buy groceries", false)) == "0: Buy groceries [ ]"
  {
    assert Decimal(0) == "0";
    assert EntryLine(0, Todo("Buy groceries", false)) == "0" + ": " + "Buy groceries" + " " + "[ ]";
  }

  lemma ExampleLineDog()
    ensures EntryLine(1, Todo("Walk the dog", false)) == "1: Walk the dog [ ]"
  {
    assert Decimal(1) == "1";
    assert EntryLine(1, Todo("Walk the dog", false)) == "1" + ": " + "Walk the dog" + " " + "[ ]";
  }

  lemma ExampleLineGroceriesDone()
    ensures EntryLine(0, Todo("Buy groceries", true)) == "0: Buy groceries [x]"
  {
    assert Decimal(0) == "0";
    assert EntryLine(0, Todo("Buy groceries", true)) == "0" + ": " + "Buy groceries" + " " + "[x]";
  }

  /** What `list` prints after each step of that sample session. */
  lemma ExampleSessionListings()
    ensures Step([Todo("Buy groceries", false), Todo("Walk the dog", false)], List).lines
            == [Out("0: Buy groceries [ ]"), Out("1: Walk the dog [ ]")]
    ensures Step([Todo("Buy groceries", true), Todo("Walk the dog", false)], List).lines
            == [Out("0: Buy groceries [x]"), Out("1: Walk the dog [ ]")]
    ensures Step([Todo("Buy groceries", true)], List).lines == [Out("0: Buy groceries [x]")]
  {
    var groceries, dog, done := Todo("Buy groceries", false), Todo("Walk the dog", false), Todo("Buy groceries", true);
    ExampleLineGroceries();
    ExampleLineDog();
    ExampleLineGroceriesDone();
    assert Listing([groceries, dog]) == [Out(EntryLine(0, groceries)), Out(EntryLine(1, dog))];
    assert Listing([done, dog]) == [Out(EntryLine(0, done)), Out(EntryLine(1, dog))];
    assert Listing([done]) == [Out(EntryLine(0, done))];
  }
}
