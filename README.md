# sssd lifecycle dispatcher, modelled in Dafny

`sssd` lets an application answer `./app status | start | stop | daemon`. One
invocation resolves the executable's base name, picks the first keyword among
the command-line arguments and runs one of five branches:

- `status` prints whether another instance of the executable is running;
- `stop` sends a termination request to every other instance;
- `daemon` relaunches the executable as `./app start` with its output in a log
  file, unless another instance is already running;
- `start` runs the application's workload;
- anything else prints a usage line.

The model works over abstract inputs. A `Host` value holds the resolved
executable name (or none), the arguments and whether they are all valid
Unicode, the caller's process identifier, a
snapshot of the process table, and the outcomes the code observes from the
operating system: whether the log file opens, whether the spawn succeeds and
whether the workload succeeds. What an invocation does is a list of `Effect`s
(`Print`, `Kill`, `CreateDir`, `Spawn`, `RunWorkload`) together with an `Exit`,
which is either normal or a panic with its `Fault`.

Modules:

- `Effects` (effects.dfy): processes, messages, effects, faults, and how a
  message is rendered as a line.
- `Selector` (selector.dfy): the action selector `Matching`.
- `Liveness` (liveness.dfy): the liveness check `Status` and the stop targets.
- `Dispatcher` (dispatcher.dfy): the stop loop, the daemon decision, and the
  dispatch of `create`. The function `Dispatch` specifies it and the method
  `Create` implements it.

An entry of the snapshot counts as "another instance" when its name is exactly
the executable's name and its identifier is not the caller's (`Qualifies`). The
source first filters the table by exact name and then skips its own pid. The
model folds both tests into one predicate, and the result is the same.

The log path is built the way the code builds it. Line 53 formats the relaunch
path `./app`, which already carries its prefix, so the path is
`./logs/./app.log`. That names the same file as `./logs/app.log`.

## Model

| member | source | states |
|---|---|---|
| `Selector.Matching` | src/lib.rs:102-118 | the result is one of the four keywords or "help"; it is "help" exactly when no argument equals a keyword; otherwise it is the argument at some index with no keyword before it, i.e. the first keyword left to right |
| `Selector.MatchingKeepsFirst` | src/lib.rs:103-116 | once a keyword has appeared, appending any arguments, further keywords included, does not change the action |
| `Selector.MatchingSkipsNonKeywords` | src/lib.rs:103-116 | a prefix of non-keyword arguments, of any length, is skipped: the action is decided by what follows it |
| `Selector.MatchingIsExact` | src/lib.rs:104-117 | near misses such as `Start`, `stop1`, `STATUS` and ` daemon` are not keywords and yield "help"; a lone program path yields "help" |
| `Liveness.Status` | src/lib.rs:92-100 | reports running iff some entry has the exact name and a pid other than the caller's; when running, the message names the first such entry in enumeration order; when stopped, the message is `Stopped(app)` |
| `Liveness.StatusIgnoresSelf` | src/lib.rs:95 | inserting the caller's own entry anywhere in the snapshot, whatever its name, never changes the liveness check's result |
| `Liveness.StatusScenarios` | src/lib.rs:94-99 | with only the caller under the name (and another program), status is stopped with `Stopped("app")`; with a sibling 4242, it is running and names 4242 |
| `Liveness.Targets` | src/lib.rs:38-39 | the stop targets are exactly the snapshot entries with the exact name and a pid other than the caller's, and no more of them than the snapshot has |
| `Liveness.TargetsAppend` | src/lib.rs:38-43 | targets of a concatenated snapshot are the targets of each part in order: every entry is decided on its own and snapshot order is kept |
| `Liveness.StatusReportsFirstTarget` | src/lib.rs:38-41 | the stop action signals every other instance while status reports one: status reports running iff the stop action has at least one target, and then it names the first target |
| `Effects.Decimal` | src/lib.rs:96 | a pid is displayed as a non-empty string of decimal digits: exactly "0" for zero, and with no leading zero otherwise |
| `Effects.DecimalRoundTrip` | src/lib.rs:40 | reading the displayed digits back gives the pid |
| `Effects.DecimalScenario` | src/lib.rs:96 | pid 4242 is displayed as `4242` |
| `Effects.RunningTextScenario` | src/lib.rs:96 | the running line for pid 4242 of `app` is `<4242> "app" is running.`, so it contains `4242` and `running` |
| `Dispatcher.StopEffects` | src/lib.rs:40-41 | two effects per target, and the killed pids are the targets' pids in order |
| `Dispatcher.StopStep` | src/lib.rs:38-43 | scanning one more entry adds its notice and kill exactly when it qualifies, and nothing otherwise |
| `Dispatcher.Stop` | src/lib.rs:36-44 | the loop over the snapshot emits a notice and a kill for each qualifying entry in snapshot order; the killed pids are exactly the targets' pids, one per entry, for 0, 1 or N matches |
| `Dispatcher.StopKillsOnlyOtherInstances` | src/lib.rs:38-41 | every pid the stop action kills differs from the caller's and belongs to a snapshot entry with the executable's exact name |
| `Dispatcher.StopSpawnsNothing` | src/lib.rs:36-44 | the stop action neither spawns a process nor runs the workload |
| `Dispatcher.Daemon` | src/lib.rs:46-73 | the daemon action never kills and never runs the workload, spawns at most once, and ends normally iff an instance is running or both the log open and the spawn succeed |
| `Dispatcher.DaemonSpawnsOnlyWhenStopped` | src/lib.rs:47-71 | when running, the daemon action only prints the status message; otherwise its spawns are exactly one `./app start` with stdout and stderr both on `./logs/./app.log`, provided the log opens and the launch succeeds, and none otherwise; when nothing else runs, the first effect is creating `./logs`, and the invocation ends with `LogOpenFailed` if the log does not open, `SpawnFailed` if only the launch fails, and normally otherwise |
| `Dispatcher.DaemonIdempotent` | src/lib.rs:47-49 | once a child with the executable's name and another pid is in the snapshot, the daemon action spawns nothing and only prints |
| `Dispatcher.DaemonTwiceScenario` | src/lib.rs:46-72 | daemonising with only the caller alive creates `./logs` and spawns `./app start` into `./logs/./app.log`; doing it again with that child visible only reports the child |
| `Dispatcher.Create` | src/lib.rs:22-83 | the dispatch resolves the name, panics when it cannot, panics when an argument is not valid Unicode, selects the action with `Matching` and runs exactly the selected branch, its effects and exit equal to the specification `Dispatch` |
| `Dispatcher.OnlyStartRunsWorkload` | src/lib.rs:75-77 | the workload runs once when the name resolves, the arguments are valid Unicode and the action is `start`, and never otherwise |
| `Dispatcher.OnlyStopKills` | src/lib.rs:36-44 | kills happen only in the stop action, and there they are the targets' pids in snapshot order |
| `Dispatcher.OnlyDaemonSpawns` | src/lib.rs:46-73 | at most one spawn per invocation, and only by the daemon action when no other instance is running |
| `Dispatcher.HelpOnlyPrints` | src/lib.rs:79-81 | with a resolved name, valid arguments and no keyword among them, the invocation only prints the usage line `Help(app)`, with no kill, spawn or workload |
| `Dispatcher.HelpScenario` | src/lib.rs:80 | `["./app"]` yields only the usage line |
| `Dispatcher.StatusRunningScenario` | src/lib.rs:31-34 | `["./app", "status"]` with sibling 4242 prints `Running(4242, "app")`, whose line is `<4242> "app" is running.` |
| `Dispatcher.FailureScenarios` | src/lib.rs:27-28 | an unresolvable executable name, or an argument that is not valid Unicode, panics before any effect; a failing workload panics after running it once |

## Left out

- Process enumeration (`System::new_all`, `processes_by_exact_name`) is replaced by an input snapshot. Its order is the order the operating system yields. Each invocation takes one snapshot.
- On Linux the kernel truncates process names to 15 characters, so a longer executable name never matches. The model takes the snapshot's names as given.
- `process.kill()` appears only as a `Kill(pid)` effect. Its success or failure is not observed by the code and is not modelled.
- `env::current_exe` and the base-name extraction are an input `Option<string>`. The `unwrap` becomes a `NoExecutableName` panic before any effect.
- `env::args()` panics when an argument is not valid Unicode. The model takes that as an input flag and ends with a `NonUnicodeArgument` panic before any effect; the arguments themselves are modelled as strings.
- `create_dir`, the two `OpenOptions::open` calls and `Command::spawn` are file-system and process I/O. The model keeps the directory effect, the computed paths, the decision to spawn, and the two observed outcomes as inputs: the log fails to open (`LogOpenFailed`) or the spawn fails (`SpawnFailed`). Separate failures of the first and second open are not distinguished.
- The asynchronous workload and its runtime are a single `RunWorkload` effect, with its success as an input.
- Text: the `{:?}` Debug formatting of a process name is rendered as the name in double quotes, without Rust's escaping of special characters.
- The child process keeps running after a successful daemon spawn. The model does not cover that, nor the race between two concurrent daemon invocations.
