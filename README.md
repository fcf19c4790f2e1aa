# A verified model of a command-line todo list

The program keeps a list of todos, each a description and a completion flag,
in a JSON file. Each invocation loads the list, applies one subcommand
(`add`, `remove`, `list` or `complete`), prints what it did (nothing for
`add`), and asks to write the list back on `add` and on an in-range `remove`
or `complete`. This project models the command
executor in `main`: the list it owns, the four subcommands, the lines they
print, and when a save is asked for. It proves what each subcommand does to
the list.

- `decimal.dfy`, module `DecimalText`: the decimal text Rust prints for an
  index (`{}` on a `usize`). `ParseDecimal` reads it back, and the two are
  proved inverse in both directions.
- `todo.dfy`, module `TodoModel`: the `Todo` value, the `Command` sum type,
  the printed lines, and `Step`. `Step` is the effect of one command on the
  loaded list, stated as a function. The lemmas about `Step` state the
  properties of each command, and they also prove that a `list` line is
  unambiguous.
- `session.dfy`, module `TodoCli`: class `Session` holds the list as a
  field, with one method per subcommand that changes it in place.
  `Session.Execute` dispatches like the `match` in `main`, and it is proved
  equal to `Step`. `Run` models one invocation: load or fall back, execute,
  then hand the list to the store if a save was asked for.

Printed output is returned as a sequence of `Line` values. `Out` is a line
on standard output and `Err` a line on standard error. `RemovedEcho` is the
`Removed: {:?}` line and carries the removed todo itself. A save request is a
returned boolean, or in `Run` the list that would be written.

What the program does at its boundaries, as the code has it:
- `add` prints nothing, so `Session.Add` returns no lines.
- An out-of-range `remove` or `complete` prints `Error: Task {index} doesn't
  exist` on standard error and leaves the list alone. The model returns that
  line.
- A failed load, whether the store is unreadable or holds malformed JSON,
  becomes the empty list (`unwrap_or_default`). The result of every save is
  ignored (`let _ =`). So a store that cannot be read is followed by a normal
  run on an empty list, and a command that writes the list then asks to
  overwrite the store (see `TodoCli.FailedLoadStartsEmpty`).

## Model

| member | source | states |
|---|---|---|
| `TodoCli.Session.constructor` | src/main.rs:90 | the session's list is the loaded list, or the empty list when loading failed |
| `TodoCli.Session.Add` | src/main.rs:94-96 | the list grows by one and keeps every earlier todo; the new last todo has the given description and `completed == false`; nothing is printed; a save is requested |
| `TodoCli.Session.Remove` | src/main.rs:99-106 | a save is requested iff `index < len`. If so, the length drops by one, the prefix before `index` is kept, later todos shift down by one, and the removed todo is echoed. Otherwise the list is unchanged and the "Task {index} doesn't exist" line goes to standard error |
| `TodoCli.Session.List` | src/main.rs:109-113 | exactly one line per todo, in index order, `"{i}: {description} [x]"` when completed and `"{i}: {description} [ ]"` otherwise; the method cannot modify the list |
| `TodoCli.Session.Complete` | src/main.rs:116-124 | a save is requested iff `index < len`. If so, only that todo's flag becomes true, its description and every other todo are kept, and the completion line names its description. Otherwise the list is unchanged and the missing-task error line is printed |
| `TodoCli.Session.Execute` | src/main.rs:93-126 | dispatching a command changes the list, prints and requests a save exactly as `Step` gives it |
| `TodoCli.Run` | src/main.rs:90-126 | one invocation prints `Step`'s lines for the loaded-or-empty list. It hands a list to the store exactly on the branches that write it (add, in-range remove, in-range complete), and that list is the one after the command |
| `TodoCli.FailedLoadStartsEmpty` | src/main.rs:90 | after a failed load, `remove`/`complete` find nothing and save nothing, `list` prints nothing, and `add` saves a list holding only the new todo |
| `TodoModel.SaveExactlyWhenWritten` | src/main.rs:93-126 | a save is requested exactly on `add` and on in-range `remove`/`complete` (also when the todo was already complete); every branch without a save leaves the list unchanged |
| `TodoModel.AddAppends` | src/main.rs:94-95 | add appends exactly one todo at the end, `completed == false`, with all earlier todos unchanged |
| `TodoModel.RemoveShifts` | src/main.rs:100-102 | in-range remove keeps the prefix and shifts the suffix down by one. The result plus the removed todo is the original multiset. The removed todo is echoed |
| `TodoModel.CompleteSetsOnlyThatFlag` | src/main.rs:118-119 | in-range complete sets only that todo's flag; its description and all other todos are unchanged |
| `TodoModel.CompleteIdempotent` | src/main.rs:118-119 | completing the same index twice gives the same list as completing it once (in range or not) |
| `TodoModel.EntryLineShape` | src/main.rs:111-112 | a listing line starts with the index in decimal followed by `": "`. After `": "` comes the description, a space and the marker. It ends in `[x]` iff the todo is completed |
| `TodoModel.DigitsBeforeColon` | src/main.rs:112 | the decimal index before the first `:` of a line is determined by the line, because digits never include `:` |
| `TodoModel.DescriptionAndMarker` | src/main.rs:111-112 | the description and the three-character marker at the end of a line are determined by that text |
| `TodoModel.EntryLineInjective` | src/main.rs:110-112 | two listing lines are equal only for the same index and the same todo |
| `TodoModel.ListingDeterminesTodos` | src/main.rs:109-113 | two lists for which `list` makes the same sequence of `println!` calls are the same list |
| `TodoModel.ListingTextOfListing` | src/main.rs:110-112 | the `Out` lines that `list` returns (`Step(todos, List).lines`) carry exactly the texts `EntryLines(todos)`, in order; `ListingText` prints those texts, each followed by a line break |
| `TodoModel.PrintedInjective` | src/main.rs:112 | texts without line breaks can be read back from the standard output of their `println!` calls |
| `TodoModel.ListingTextDeterminesTodos` | src/main.rs:109-113 | two lists whose descriptions hold no line break and for which `list` writes the same text to standard output are the same list |
| `TodoModel.ListingTextAmbiguous` | src/main.rs:112 | with a line break in a description the printed text is ambiguous: `[Todo("x [ ]\n1: y", false)]` and `[Todo("x", false), Todo("y", false)]` both print `"0: x [ ]\n1: y [ ]\n"` |
| `TodoModel.MissingTaskLineInjective` | src/main.rs:105 | the missing-task error lines of two different indices differ |
| `TodoModel.ExampleSessionLists` | src/main.rs:94-119 | a sample session from an empty store (add "Buy groceries", add "Walk the dog", complete 0, remove 1) gives `[Todo("Buy groceries", false), Todo("Walk the dog", false)]` after the two adds, `[Todo("Buy groceries", true), Todo("Walk the dog", false)]` after complete 0, and `[Todo("Buy groceries", true)]` after remove 1 |
| `TodoModel.ExampleSessionListings` | src/main.rs:109-113 | `list` prints `0: Buy groceries [ ]`, `1: Walk the dog [ ]` after the two adds; `0: Buy groceries [x]`, `1: Walk the dog [ ]` after complete 0; and `0: Buy groceries [x]` alone after remove 1 |
| `DecimalText.Decimal` | src/main.rs:112 | an index is printed as a non-empty digit string with no leading zero; the text starts with `0` only for index 0 |
| `DecimalText.ParseDecimalOfDecimal` | src/main.rs:112 | reading back the printed index gives the index |
| `DecimalText.DecimalOfParseDecimal` | src/main.rs:112 | every digit string without a leading zero is the printed form of the number it denotes |
| `DecimalText.DecimalInjective` | src/main.rs:112 | distinct indices print as distinct digit strings |

## Left out

- Command-line parsing by `clap` (the `Cli` struct and `Cli::parse`). The model takes an already parsed `Command`. An index is a `nat`, and the parser's rejection of negative or over-wide (`usize`) numbers is not modelled.
- File work in `load_data` and `save_todos`: the path check, directory creation, reading and writing the file. Loading becomes an input `Loaded`, either the stored list or `LoadFailed`. Saving becomes a returned request.
- JSON encoding and decoding through `serde_json`. This is a foreign library, so a save/load round trip would be a statement about it, not about this code.
- The `{:?}` Debug layout of the removed todo, including Rust's string escaping. `RemovedEcho` carries the todo value rather than its rendered text.
- The ignored result of `save_todos`. It has no effect on what the program prints or on its exit status, so a save is modelled only as "requested".
- Rust's `String` is UTF-8 bytes. Descriptions are modelled as sequences of characters.
- `Vec`'s storage (capacity, reallocation on `push`, the element moves of `remove`). The list is a `seq` field that each method reassigns, so the model does not capture aliasing into the buffer.
- TodoModel.ListingDeterminesTodos: speaks of the sequence of `println!` calls, not of the bytes on standard output. A description may hold a line break, which `println!` prints as is, and then the printed text is ambiguous (`TodoModel.ListingTextAmbiguous`). The text-level property `TodoModel.ListingTextDeterminesTodos` therefore assumes descriptions without line breaks.
