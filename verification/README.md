# File organizer: a Dafny model

This project models the core of a small Go file organizer. The program watches one "dump" directory. After activity there settles, it moves each file into the first configured destination directory whose prefix/suffix rule matches the file's name. The model covers four parts of `file-organizer.go`:

- **Rule matcher** (`matchesPattern`). Module `Matcher`, file `matcher.dfy`. `MatchesPattern` is a pure function over `strings.HasPrefix`/`strings.HasSuffix`. `FirstMatch` gives the first rule, in list order, that a file name matches.
- **File relocator** (`moveFile`, `copyFile`).
  - Module `FileSystem`, file `filesystem.dfy`, models the operating system. A value `FsState` holds the regular files (bytes and permission bits) and the set of directories. Class `Fs` holds the live state and has one method per OS call the program makes: `MkdirAll`, `Stat`, `Rename`, `Open`, `Create`, `Stream` (io.Copy), `StatMode`, `Chmod` and `Remove`.
  - Each OS call can fail for a reason visible in the state, such as a missing source or a missing parent directory. It can also fail because a `fail` flag says the OS refused. The flags for one relocation come in a `Faults` record.
  - Module `Relocator`, file `relocator.dfy`, has the methods `CopyFile` and `MoveFile`. They run the same steps in the same order as the Go functions and return at the same points. Each is proved equal to a pure specification, `CopySpec` or `MoveSpec`. The lemmas about what a move does on each path are proved about those specifications.
- **Batch organizer** (`organizeFiles`). Module `Organizer`, file `organizer.dfy`. The method `Organize` keeps the Go loop structure: an outer loop over the directory entries and an inner loop over the rules, with a `break`, a `moved` flag and the two counters. It is proved equal to the pure pass `Scan`, run with `MoveSpec` as its relocation. The counting and first-match lemmas about `Scan` hold for any relocation function (`Mover`); the ones about files and directories use `MoveSpec`. Lemmas about `Scan` cover the counters, the first-match discipline and what a pass never touches.
  - The listing returned by `os.ReadDir` is an input: `None` when listing failed. The `Faults` for the entry at position `i` are `faults(i)`. The counters, which the Go code only logs, are returned.
- **Debounce** (the global `timer` in `main`). Module `Debounce`, file `debounce.dfy`. The class `Debouncer` holds the timer slot as `pending: Option<int>`, a deadline on an explicit integer clock (one unit per second).
  - `OnEvent` stops the pending timer and arms a new one `DELAY` (5) units later.
  - `Tick` fires a due timer.
  - `Stop` is the `timer.Stop()` of shutdown and carries no time. A shutdown signal arriving at time `T` is `Shutdown(T)`: a timer whose deadline came before `T` has already fired and started its pass, and then the slot is stopped.
  - `Watch` is the notification loop. It is proved equal to the pure trace `Replay`, about which the debounce lemmas are stated.

Two behaviours of the code are reproduced as written:

- **A failed move is counted as skipped twice.** It is counted once in the error branch of the rule loop (line 201). It is counted again after the loop, because `moved` is still false (lines 211-213). So `moved + skipped` equals the number of files plus the number of failed moves (`Organizer.ScanCounts`).
- **A failed permission copy fails the whole move.** The chmod at the end of `copyFile` returns its error, so `moveFile` reports a copy failure and keeps the source. The destination is left holding all of the source's bytes (`Relocator.MoveFailureKeepsSource`). The file is already copied at that point, so this failure could have been only a warning. The model follows the code as written.

When the timer's deadline and a notification fall at the same instant, the model fires the timer first.

## Model

| member | source | states |
|---|---|---|
| `Matcher.MatchesPattern` | file-organizer.go:88-100 | A name matches a rule iff at least one of prefix/suffix is set and every condition that is set holds (prefix-of, suffix-of) |
| `Matcher.HasPrefixIff` | file-organizer.go:91 | `HasPrefix(s, p)` holds iff `s` is `p` followed by some string |
| `Matcher.HasSuffixIff` | file-organizer.go:91 | `HasSuffix(s, x)` holds iff `s` is some string followed by `x` |
| `Matcher.BothConditionsRequired` | file-organizer.go:90-92 | With both prefix and suffix set, a name matches iff it starts with the prefix and ends with the suffix |
| `Matcher.SingleConditionDecides` | file-organizer.go:93-99 | With only one of prefix/suffix set, that test alone decides; with both empty, no name matches |
| `Matcher.FirstMatch` | file-organizer.go:193-208 | The chosen rule matches the name and no earlier rule does; no rule is chosen iff none matches |
| `Matcher.FirstMatchIgnoresLaterRules` | file-organizer.go:193-208 | Appending rules after a matching rule never changes the choice |
| `Matcher.OverlappingRulesScenario` | file-organizer.go:193-207 | `report_2024.csv` under the rules `prefix report_` and `suffix .csv` goes to whichever rule is listed first |
| `FileSystem.Join` | file-organizer.go:190 | `filepath.Join(dir, name)` is `dir` with one more component, `name` |
| `FileSystem.Dir` | file-organizer.go:104 | `filepath.Dir` drops the last component; the root is its own parent |
| `FileSystem.DirOfJoin` | file-organizer.go:195 | The parent of `Join(dir, name)` is `dir` |
| `FileSystem.Ancestors` | file-organizer.go:105 | The directories `MkdirAll(d)` must provide: `d` and every prefix of it, the root included |
| `FileSystem.FsState.WithDirs` | file-organizer.go:105 | After `MkdirAll(d)` the files are unchanged and the directories gain exactly the ancestors of `d` |
| `FileSystem.FsState.Renamed` | file-organizer.go:116 | After a rename, `dst` holds the source's file, the source path is gone, and every other path is unchanged |
| `FileSystem.FsState.Created` | file-organizer.go:147 | `os.Create` leaves an empty file at `dst`, keeps the mode of a file it truncates, uses 0o666 for a new one, and changes no other path |
| `FileSystem.FsState.Written` | file-organizer.go:161 | Writing into `dst` replaces its bytes, keeps its mode, and changes no other file |
| `FileSystem.FsState.Chmodded` | file-organizer.go:171 | Chmod replaces `dst`'s mode, keeps its bytes, and changes no other file |
| `FileSystem.FsState.Removed` | file-organizer.go:125 | Remove deletes exactly the path `p` and keeps every other file as it was |
| `FileSystem.Fs.MkdirAll` | file-organizer.go:105-108 | Succeeds iff not refused and no prefix of `d` is a regular file; on success the directories gain `d`'s ancestors, otherwise nothing changes |
| `FileSystem.Fs.Stat` | file-organizer.go:110 | Reports whether a file or directory exists at the path |
| `FileSystem.Fs.Rename` | file-organizer.go:116 | Succeeds iff not refused, the source is a file, the destination's parent is a directory and the destination is not; then moves the file |
| `FileSystem.Fs.Open` | file-organizer.go:134 | Succeeds iff not refused and the source file exists; changes nothing |
| `FileSystem.Fs.Create` | file-organizer.go:147 | Succeeds iff not refused, the parent is a directory and `dst` is not one; then creates or truncates `dst` |
| `FileSystem.Fs.Stream` | file-organizer.go:161 | `dst` receives all of the source's bytes, or, on a broken stream, a prefix of at most `written` bytes |
| `FileSystem.Fs.StatMode` | file-organizer.go:166 | Returns the source's permission bits iff not refused and the source exists |
| `FileSystem.Fs.Chmod` | file-organizer.go:171 | Succeeds iff not refused and `dst` is a file; then sets its mode |
| `FileSystem.Fs.Remove` | file-organizer.go:125 | Succeeds iff not refused and the file exists; then deletes it |
| `FileSystem.StepsPreserveValid` | file-organizer.go:104-171 | Every successful OS step keeps the file system well formed: the root exists, no path is both a file and a directory, and every parent exists |
| `FileSystem.DirsClosedUnderPrefix` | file-organizer.go:104-105 | In a well-formed state every prefix of an existing directory is a directory, so `MkdirAll` of an existing directory is never blocked by a regular file |
| `Relocator.CopySpec` | file-organizer.go:133-172 | A copy never makes or removes a directory; a failed open or create changes nothing; a successful copy had a source and leaves the destination equal to it, bytes and permission bits |
| `Relocator.MoveSpec` | file-organizer.go:102-131 | A failed `MkdirAll` changes nothing; an existing destination changes no file; a successful move had a source, removes it, and leaves a file at the destination |
| `Relocator.CopyFile` | file-organizer.go:133-172 | Runs open, create, stream, stat and chmod in order and stops at the first failure, with exactly the result and state of `CopySpec` |
| `Relocator.MoveFile` | file-organizer.go:102-131 | Runs mkdir, the exists check, rename, then copy and remove, with exactly the result and state of `MoveSpec` |
| `Relocator.MoveNeverOverwrites` | file-organizer.go:110-114 | A move never changes or deletes any file other than its source and never removes a directory; if the destination exists, it fails and changes no file, and in a well-formed state where `MkdirAll` is not refused that failure is the already-exists error |
| `Relocator.MoveSuccess` | file-organizer.go:116-131 | On success, the source existed and the destination did not; afterwards the destination holds the source's bytes and mode, the source is gone, and the destination's directories exist |
| `Relocator.MoveFailureKeepsSource` | file-organizer.go:105-128 | On failure the source is unchanged; at most a destination holding a prefix of the source's bytes is added; a failed remove leaves a full copy; a failed stat or chmod at the end of the copy leaves the destination with all the source's bytes; a failed mkdir changes nothing |
| `Relocator.FallbackRelocates` | file-organizer.go:120-131 | When only the rename is refused, copy, chmod and remove still produce exactly the state a successful rename-based move would |
| `Relocator.CopyPreservesValid` | file-organizer.go:133-172 | A copy keeps the file system well formed, whatever it returns |
| `Relocator.MovePreservesValid` | file-organizer.go:102-131 | A move keeps the file system well formed, whatever it returns |
| `Organizer.Visit` | file-organizer.go:185-214 | Handling one entry appends exactly one outcome and keeps the earlier ones |
| `Organizer.Scan` | file-organizer.go:184-215 | A pass records exactly one outcome per listed entry |
| `Organizer.ScanDirectory` | file-organizer.go:185-187 | A directory entry only adds a `Directory` outcome: counters and file system unchanged |
| `Organizer.ScanUnmatched` | file-organizer.go:193-213 | A file no rule matches is skipped once and changes nothing |
| `Organizer.ScanMatched` | file-organizer.go:193-213 | A file whose first matching rule is `j` is relocated to `j`'s directory; success adds one to `moved`, failure two to `skipped` |
| `Organizer.VisitCounts` | file-organizer.go:191-214 | One entry adds one to `moved` when moved, one to `skipped` when unmatched, two when its move failed, nothing when a directory; the outcome is `Directory` iff the entry is one |
| `Organizer.VisitAgrees` | file-organizer.go:185-208 | The outcome one entry gets follows its first matching rule: `Directory` for directories, `Unmatched` with no match, otherwise moved or failed on that rule |
| `Organizer.ScanCounts` | file-organizer.go:191-214 | For any relocation, `moved` counts the moved files; `skipped` counts one per unmatched file and two per failed move; every file gets exactly one of these outcomes; so moved + skipped = files + failed moves |
| `Organizer.ScanFollowsFirstMatch` | file-organizer.go:184-209 | For any relocation, directories are passed over; a file is moved, or fails to move, only to its first matching rule; a file with no match is unmatched |
| `Organizer.VisitNeverOverwrites` | file-organizer.go:189-207 | Handling one entry changes no file other than that entry's source, when a rule claims it, and removes no directory |
| `Organizer.ScanNeverOverwrites` | file-organizer.go:184-215 | A pass leaves every file unchanged except matched dump-directory files, and keeps every directory |
| `Organizer.ScanPreservesValid` | file-organizer.go:184-215 | A pass keeps the file system well formed |
| `Organizer.Organize` | file-organizer.go:174-219 | Returns an error, with nothing changed, exactly when the listing failed; otherwise returns success, and its counters, outcomes and final state are those of `Scan` |
| `Debounce.Debouncer.constructor` | file-organizer.go:221 | The timer slot starts empty |
| `Debounce.Debouncer.OnEvent` | file-organizer.go:271-276 | Every change notification replaces any pending timer with one due `DELAY` later |
| `Debounce.Debouncer.Tick` | file-organizer.go:276-283 | A timer fires exactly when its deadline has been reached, and the slot is then idle |
| `Debounce.Debouncer.Stop` | file-organizer.go:310-313 | After shutdown no timer is pending |
| `Debounce.Debouncer.Shutdown` | file-organizer.go:306-313 | A signal at `now` finds that a timer already due has fired, exactly when its deadline is at or before `now`; afterwards no timer is pending |
| `Debounce.Step` | file-organizer.go:264-289 | One notification starts a pass exactly when the timer was due by its arrival, at most one, keeping earlier passes; a change arms a timer `DELAY` later; an error leaves a timer that is not yet due untouched; no timer is left overdue |
| `Debounce.Replay` | file-organizer.go:262-292 | A run of notifications only appends passes, at most one per notification; a timer left pending is due after the last notification |
| `Debounce.Debouncer.Watch` | file-organizer.go:261-292 | The event loop leaves the slot and the passes started as `Replay` gives them; errors only let the clock advance |
| `Debounce.PassCount` | file-organizer.go:271-283 | From idle, change notifications start one pass per gap of at least `DELAY` and leave one timer due `DELAY` after the last |
| `Debounce.BurstCollapses` | file-organizer.go:271-283 | Notifications each less than `DELAY` apart produce exactly one pass, due `DELAY` after the last one |
| `Debounce.SpacedEventsEachFire` | file-organizer.go:271-283 | Notifications at least `DELAY` apart produce one pass each, due `DELAY` after that notification |
| `Debounce.IdleStaysIdle` | file-organizer.go:285-289 | With the slot idle, as after shutdown, error notifications never start a pass |
| `Debounce.PassesAtShutdown` | file-organizer.go:306-313 | The passes started by a shutdown at `now` extend those already started, are part of what would run with no shutdown, and miss only a pending timer whose deadline is after `now` |
| `Debounce.ShutdownKeepsDuePasses` | file-organizer.go:261-313 | On a clock-ordered stream, a shutdown after the last notification keeps exactly the passes due by then: every kept pass is due by `now`, and every lost one is due later |
| `Debounce.ErrorsLag` | file-organizer.go:285-289 | Replaying a clock-ordered stream with and without its error notifications gives the same passes, and the two timer slots differ only by a timer an error let fire early, already overdue |
| `Debounce.ErrorsNeverChangePasses` | file-organizer.go:285-289 | On a clock-ordered stream, error notifications never change which passes run: they are those of the change notifications alone |
| `Debounce.PassesFollowQuiet` | file-organizer.go:271-283 | On a time-ordered stream, every pass is due `DELAY` after a change notification, and no later change arrived before that deadline |

## Left out

- `loadConfig` (lines 30-86): it reads a file from the home directory and parses YAML with an external library. The configuration is an input `Config` holding the dump path and the rules in order.
- Process plumbing in `main` is not modelled: log file setup, `log.Fatal` exits, the dump-directory existence check at startup, fsnotify watcher creation and subscription, and signal handling.
- Concurrency is not modelled. `time.AfterFunc` runs its callback on its own goroutine, so organize passes can overlap. The model is a sequential state machine: a fired timer appears as its deadline in `passes`, and the pass it starts is `Organizer.Organize`.
- The deferred close-error closures in `copyFile` (lines 135-141, 148-154) only log. They cannot change the returned error.
- Exact `filepath.Join`/`filepath.Dir` normalisation is not modelled. Paths are lists of components.
- `os.ReadDir` is not modelled. Its result is an input, in whatever order it is given.
- Directories carry no permission bits. The umask is not applied to `os.Create`'s 0o666.
- `FileSystem.Fs.MkdirAll`: a failed `MkdirAll` changes nothing in the model. In Go it may leave some of the parent directories it created before failing.
- `FileSystem.Fs.Stat`: the existence check is exact. A `Stat` that errs for another reason, such as permissions, and so lets the move go ahead is not modelled.
- `FileSystem.Fs.Remove`, `FileSystem.Fs.Open`: only regular files are modelled. Removing an empty directory and opening a directory are not.
- Real time is an integer clock. A timer callback that runs late is not modelled.
