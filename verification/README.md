# artic-kiwi issue store, modelled in Dafny

artic-kiwi is a tiny file-backed issue tracker. A hidden `.kiwi` directory
under the working directory is the project: it holds one file per issue,
named by the issue's id and containing the serialized `Kiwi::Issue`. The
commands `add`, `update`, `resolve`, `info`, `list` and `untrack` read and
write those files.

This project models that store and the issue lifecycle:

- `Issues` (issues.dfy): the `Issue` record with its closed `State`
  (`Unresolved` | `Resolved`), the constructor defaults and the two
  mutations the commands perform.
- `Store` (store.dfy): the directory as `Workspace(present, records)`, where
  `records: map<string, Issue>` maps file name to record. It holds
  `is_project?` (`IsProject`), `Issue#save` (`Save`), `Issue.[]`
  (`Lookup`), `Issue.find` (`Find`), `Issue.all` (`All`) and the shared
  lookup rule `Issue[id] || Issue.find(id).first` (`ResolveOne`). The
  invariant `Valid` holds of every reachable workspace: a missing directory
  holds nothing, every file has a plain name (`IsPlainName`: non-empty, no
  `/`, not starting with `.`, so the glob `*` enumerates it), and every
  record is stored under its own id. Plain names may share prefixes, so a
  directory holding both `ab` and `abc` is a valid workspace.
- `Commands` (commands.dfy): the command functions as transitions. Each one
  returns an `Effect`: the workspace it leaves behind plus `Success` or the
  `Error` the program would raise. `info` prints `ResolveOne`'s result and
  has no separate member.
- `Text` (text.dfy): `String#rstrip` and the "name starts with pattern"
  test. `Wrappers` (wrappers.dfy) holds `Option` and `Result`.

Inputs the program takes from outside are parameters:

- the id `Kiwi.guid` would generate;
- the user `Kiwi.user` reads from the environment;
- text read from standard input;
- the reply to `untrack`'s prompt;
- the order in which the file system enumerates the directory. This is
  `listing`, any duplicate-free enumeration of the file names (`IsListing`).
  "The first match of `find`" is the first matching entry of `listing`.

Behaviours of the code that are easy to miss, and that the model follows:

- `Issue#save` does not create the directory. Only `add` runs `Dir.mkdir`,
  so `Save` into a missing directory is an `IOFailure`.
- `add` creates the directory before it validates the text. A rejected
  `add` therefore still leaves a (possibly empty) project behind.
- A confirmed `untrack` on a missing directory raises from `Dir.unlink`.
  It is not a no-op. An unconfirmed `untrack` does nothing, because the
  reply is checked first.
- `untrack` deletes only the files the glob `*` enumerates. A file whose
  name starts with `.` stays behind, so `Dir.unlink` raises on the
  non-empty directory. `Untrack` then fails with `IOFailure` and leaves
  the directory holding exactly those hidden files.
- `Issue[""]` and `Issue["."]` name the project directory itself, and
  `Issue[".."]` names its parent, the working directory. Reading a
  directory raises, so when the project exists `Lookup` and `ResolveOne`
  fail with `IOFailure` for these names.
- `Issue#save` under a name such as `a/b` raises, because the project
  directory has no sub-directory `a` to write into.
- `update` with an explicit text does not validate it. Ruby treats an empty
  string as true, so an empty description is stored as given.

## Model

| member | source | states |
|---|---|---|
| Issues.NewIssue | lib/artic-kiwi.rb:54-59 | a new issue carries the given id, text and current user, and its state is `Unresolved` unless a state is passed in |
| Issues.MarkResolved | lib/artic-kiwi.rb:99 | setting the state to resolved leaves id, text and reporter untouched |
| Issues.WithText | lib/artic-kiwi.rb:87 | replacing the text leaves id, state and reporter untouched |
| Text.RStrip | lib/artic-kiwi.rb:75 | `rstrip` yields a prefix of the input with no trailing NUL/whitespace, having removed only such characters; it is empty exactly when the input is blank |
| Store.IsProject | lib/artic-kiwi.rb:23-25 | where there is no project directory there are no issues |
| Store.Save | lib/artic-kiwi.rb:65-69 | saving into an existing directory maps the issue's id to the issue, overwriting any earlier record under that id, and leaves every other record unchanged; with no directory, or under a directory name, it is a file-system error; saving under a plain name keeps the invariant |
| Store.Lookup | lib/artic-kiwi.rb:33-38 | exact lookup returns the stored record when the file exists and `None` (not an error) when it does not; a directory name fails |
| Store.Filter | lib/artic-kiwi.rb:41 | the glob keeps exactly the names that start with the pattern |
| Store.FilterHead | lib/artic-kiwi.rb:85 | the first entry of a prefix match is the first matching name in enumeration order |
| Store.FilterEmptyPattern | lib/artic-kiwi.rb:41 | the empty pattern keeps every name, in order |
| Store.Find | lib/artic-kiwi.rb:40-42 | `find(p)` returns exactly the records whose id starts with `p`, each once, one per matching file |
| Store.All | lib/artic-kiwi.rb:44-48 | `all` returns every stored record exactly once |
| Store.FindEmptyPatternIsAll | lib/artic-kiwi.rb:40-48 | `find("")` equals `all` |
| Store.ResolveOne | lib/artic-kiwi.rb:85 | a stored exact id is picked; otherwise the first record in enumeration order whose id has the prefix; `None` exactly when no id has the prefix |
| Store.ExactWins | lib/artic-kiwi.rb:85 | when the id is stored and another stored name extends it, the exact record is still the one picked, whatever the enumeration order |
| Store.ExactWinsExample | lib/artic-kiwi.rb:85 | with files `ab` and `abc` enumerated as `[abc, ab]`, the first prefix match of `ab` is `abc`, yet resolving `ab` picks `ab` |
| Commands.Add | lib/artic-kiwi.rb:73-82 | the directory exists afterwards; blank text (after `rstrip`) is a validation error that adds no record; otherwise exactly the new unresolved issue with the given text, id and user is stored, one more record when the id was fresh, all others unchanged |
| Commands.NewText | lib/artic-kiwi.rb:86-91 | an explicit text is stored exactly as given, even when empty; otherwise the input read is stored without its trailing NUL/whitespace |
| Commands.Update | lib/artic-kiwi.rb:84-95 | succeeds exactly when the exact-then-prefix rule finds an issue, prefix-only matches included; the issue it picks is re-saved under its own id with only its text replaced; no match is `NotFound` and changes nothing |
| Commands.UpdateThenLookup | lib/artic-kiwi.rb:84-95 | after a successful `update`, exact lookup of the issue's id returns it with the new text and its id, state and reporter as stored before |
| Commands.Resolve | lib/artic-kiwi.rb:97-102 | succeeds exactly when the exact-then-prefix rule finds an issue, prefix-only matches included; the issue it picks is re-saved under its own id with state `Resolved`, text and reporter kept; no match is `NotFound` and changes nothing |
| Commands.ResolveOneSameKeys | lib/artic-kiwi.rb:85 | which record the exact-then-prefix rule picks depends only on the file names and their enumeration, so rewriting records in place does not change the pick |
| Commands.ResolveIdempotent | lib/artic-kiwi.rb:97-102 | resolving a second time, with the same enumeration order, returns the same issue and leaves the same workspace, without error |
| Commands.List | lib/artic-kiwi.rb:108-112 | one `(id, state)` line per stored issue, each id once, with that issue's state |
| Commands.Confirmed | lib/artic-kiwi.rb:116 | the reply confirms exactly when it starts with a capital `Y` |
| Commands.Untrack | lib/artic-kiwi.rb:114-118 | a confirmed `untrack` of a project succeeds exactly when no file name starts with `.`, and then leaves no records and `is_project?` false; otherwise it fails and only the hidden files remain; for a valid workspace it always succeeds; an unconfirmed one changes nothing; a confirmed one without a project fails |
| Commands.UntrackForgetsEverything | lib/artic-kiwi.rb:114-118 | after a confirmed `untrack`, `all` and every `find` are empty and no id resolves |
| Commands.AddThenLookup | lib/artic-kiwi.rb:79 | after a successful `add`, exact lookup of the new id returns the issue with the same text, state, reporter and id |
| Commands.AddThenResolve | lib/artic-kiwi.rb:73-112 | adding then resolving by id stores the issue as `Resolved`, and `list` shows it with that state |

## Left out

- Id generation (`Kiwi.guid`, SHA-1 over `rand`, user and time) is an input
  parameter. `Commands.Add` requires only the digest's shape (`IsGuid`).
  Freshness is not assumed, matching the code, which never checks for
  collisions: `Commands.Add` states the one-more-record count only for a
  fresh id.
- Issues.NewIssue: Ruby accepts any value as the initial state; the model
  admits only the two states the program uses.
- `Kiwi.user` reads the environment; the user is a parameter. A missing
  user (`nil`) is not modelled.
- `Kiwi.path` and its `@@path` cache: the workspace is the directory itself,
  so no path is computed.
- The `@@all` and `@@size` caches. They can return stale results after a
  save within one run. The model reads the store directly.
- YAML serialization. Records are abstract values, so neither odd case of
  the program occurs in the model. An empty file loads as `nil` and `list`
  skips it. A malformed file makes `YAML.load_file` raise, and nothing
  catches that, so `Issue.[]`, `find`, `all` and the commands built on them
  stop with an error.
- Store.Find: the pattern is a plain prefix. Glob metacharacters in it, and
  the glob's hiding of names that start with `.`, are not modelled. A
  pattern starting with `.` does enumerate such files in the program. A
  pattern containing `/` is matched as a plain prefix too. The program
  joins it to the directory as a path, so `find("/")` and `find("./")`
  return every record and `resolve ./a` picks `ab`, where the model finds
  nothing.
- Store.Lookup: an id containing `/` is looked up as a plain name. Under
  `Valid` no stored name contains `/`, so the model answers `None`. The
  program joins it to the directory as a path, so `./<id>` or
  `../.kiwi/<id>` would reach a stored record.
- Store.Save: every name containing `/` is modelled as a file-system
  error. The program joins the id to the directory as a path, so `./x` and
  `/x` (the doubled separator collapses) write file `x`, `../.kiwi/x` does
  too, and `../x` writes outside the project. No command saves such a name:
  `add` saves generated ids and `update`/`resolve` re-save stored names.
- Store.Save: a name like `.x` (starting with `.`, without `/`, other than
  `.` and `..`) is saved as in the program. The
  glob `*` behind `all` and `find` would not see such a file. Workspaces
  holding one are outside `Valid`, so `Store.All` and `Store.Find` do not
  describe them; `Commands.Untrack` does, and fails on them as the program
  does. `add` writes only generated hex ids, so no command creates one.
- Text.RStrip: strings are sequences of Unicode characters. Ruby's `rstrip`
  raises on a string whose bytes are not valid in its encoding; in `add`
  that would happen at lib/artic-kiwi.rb:75, after the directory is
  created. The model cannot express an invalid byte sequence.
- Commands.Untrack: deleting files one by one and partial failure are file
  I/O. The model goes straight from the project to no directory.
- `status` (lib/artic-kiwi.rb:120-126) is not modelled. Without an argument
  and with no project it prints that there is no project. Without an
  argument and with a project, line 124 evaluates `Issues.size`, and the
  undefined constant `Issues` raises. With an argument it prints
  `Issue.find`, which `Store.Find` covers.
- `Issue.size` is never called: line 124 names `Issues`, not `Issue`.
- `version`, `to_s` and all printing are output formatting.
- Failure to create the directory in `add` (permissions, a file in the way)
  is file-system I/O.
- `Commands.Update` and `Commands.Resolve` return `NotFound` where the
  program would fail by calling a method on `nil`.
