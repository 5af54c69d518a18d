# fanctl Mode Control Engine, modelled in Dafny

`fanctl` switches a Dell G15 laptop between four power profiles: Quiet, Balanced,
Performance and G-Mode. Each profile is a fixed, ordered list of privileged
operations. First come one or two writes of an ACPI payload to `/proc/acpi/call`.
Then the CPU governor is written into every `policy*` directory under
`/sys/devices/system/cpu/cpufreq`. G-Mode is a toggle. The tool first queries the
firmware, reading back `/proc/acpi/call` and looking for `0xab`. Then it writes
either the "off" pair or the "on" pair of payloads. An unprivileged tray keeps a
cached belief of the current mode. It changes the belief only after
`pkexec fanctl <token>` exits successfully.

The model has four modules:

- `Text` (text.dfy): Rust's `starts_with` and `contains`. `Contains` is proved
  equal to "some window of the text equals the pattern".
- `Backend` and `BackendFacts` (backend.dfy):
  - the `FanMode` enum, its token and its label;
  - the payload constants, copied verbatim;
  - the operating system as a `Platform` object. Every privileged operation
    is appended to `trace`. Every outcome is read from `hw`, which the caller
    chooses: which ACPI payloads are rejected, what the read-back yields, and
    the cpufreq listing as `(name, has scaling_governor, write succeeds)` entries;
  - the source's functions as methods that append to the trace;
  - specification functions (`PlanFor`, `WriteAcpi`, `GovernorRun`,
    `ApplyRun`) that give the exact operations and outcome of each action;
  - lemmas about those functions.
  `process::exit(1)` becomes an `Exit(reason)` outcome, after which nothing
  more is done.
- `Tray` (tray.dfy): the `FanTray` class with its `currentMode` field. A ghost
  history of requests is tied to `currentMode` through `Belief`. The file also
  has the icon names and the menu as a function of the belief.
- `Cli` (cli.dfy): `main`'s dispatch on `args[1]`. `Parse` maps the argument
  list to a command, and `Fanctl` runs the command against the platform.

Behaviour of the code worth noting:

- An unknown token prints "Invalid mode". It does not print the usage line.
- The command also accepts `tray`.
- Every failure, ACPI or governor, ends the process with status 1 and a
  diagnostic. The code has no distinct error values.

## Model

| member | source | states |
|---|---|---|
| `Text.Contains` | fanctl/src/backend.rs:124 | `contains` holds exactly when some window of the text equals the pattern |
| `Backend.AsStr` | fanctl/src/backend.rs:27-34 | a mode's token is one non-empty lower-case word |
| `Backend.DisplayName` | fanctl/src/backend.rs:36-43 | a mode's label is capitalised and differs from its token |
| `Backend.AsStrInjective` | fanctl/src/backend.rs:27-34 | distinct modes have distinct tokens |
| `Backend.DisplayNameInjective` | fanctl/src/backend.rs:36-43 | distinct modes have distinct labels |
| `Backend.GModeOffIsBalanced` | fanctl/src/backend.rs:8-12 | the G-Mode-off payload is the Balanced payload |
| `Backend.Message` | fanctl/src/backend.rs:50-86 | only the ACPI failure prints an "Error:" line, and that line ends with the ACPI path; the cpufreq failures print their own lines |
| `Backend.Platform.AcpiCall` | fanctl/src/backend.rs:46-48 | a payload write is recorded and succeeds iff the interface accepts that payload |
| `Backend.Platform.ReadAcpi` | fanctl/src/backend.rs:121-122 | the read-back is recorded and yields the interface's content, or fails |
| `Backend.Platform.ReadCpufreq` | fanctl/src/backend.rs:58-63 | listing the cpufreq base is recorded and yields its entries, or fails |
| `Backend.Platform.WriteGovernor` | fanctl/src/backend.rs:72-78 | a governor write to one policy is recorded with its outcome |
| `Backend.PlanFor` | fanctl/src/backend.rs:88-113 | every mode's plan has one payload (two for G-Mode), pairwise distinct and never the query payload, and the governor is "powersave" or "performance" |
| `Backend.AcpiCallOrExit` | fanctl/src/backend.rs:50-55 | one recorded write; a rejected write exits with the ACPI failure |
| `Backend.SetGovernor` | fanctl/src/backend.rs:57-86 | the loop lists cpufreq, writes every eligible policy in order, and ends as `GovernorRun` says |
| `Backend.SetQuiet` | fanctl/src/backend.rs:88-91 | the new trace and the outcome are those of `ApplyRun(Quiet)` |
| `Backend.SetBalanced` | fanctl/src/backend.rs:93-96 | the new trace and the outcome are those of `ApplyRun(Balanced)` |
| `Backend.SetPerformance` | fanctl/src/backend.rs:98-101 | the new trace and the outcome are those of `ApplyRun(Performance)` |
| `Backend.IsGModeOn` | fanctl/src/backend.rs:115-125 | issues the query (and the read-back only if the query was accepted) and returns `GModeQuery` |
| `Backend.ToggleGMode` | fanctl/src/backend.rs:103-113 | the new trace and the outcome are those of `ApplyRun(GMode)`: the query, then the plan chosen by its answer |
| `Backend.ApplyMode` | fanctl/src/backend.rs:127-134 | each mode's trace and outcome are those of `ApplyRun` |
| `BackendFacts.WriteAcpiAborts` | fanctl/src/backend.rs:50-55 | a sequence of ACPI writes succeeds iff no payload is rejected; otherwise it stops right after the first rejected payload and exits with the ACPI failure |
| `BackendFacts.ExecuteOrder` | fanctl/src/backend.rs:88-113 | a rejected ACPI write means the governor is never attempted, so only ACPI writes appear; if all writes succeed, they stay and the governor outcome decides the result |
| `BackendFacts.PolicyWritesTargets` | fanctl/src/backend.rs:67-80 | governor writes go only to entries named `policy…` that have a `scaling_governor` node, and every such entry is written with the requested governor |
| `BackendFacts.AppliedIff` | fanctl/src/backend.rs:65-85 | the `applied` flag is set iff at least one eligible policy accepted the write |
| `BackendFacts.GovernorRunSucceedsIff` | fanctl/src/backend.rs:57-86 | `set_governor` succeeds iff the base is readable and at least one eligible write succeeded; an unreadable base or zero successes exit |
| `BackendFacts.FixedModeTraces` | fanctl/src/backend.rs:88-101 | Quiet, Balanced and Performance issue their payload (QUIET_MODE, BALANCED_MODE, PERF_MODE), then the "powersave", "powersave" or "performance" governor step; a rejected payload ends the run there |
| `BackendFacts.FixedModesIgnoreGModeBit` | fanctl/src/backend.rs:127-134 | a fixed mode's run does not depend on the G-Mode read-back, so repeating it gives the same trace |
| `BackendFacts.GModeQueryCases` | fanctl/src/backend.rs:115-125 | the query is false when its write fails or the read-back is unreadable; otherwise it is true iff the read-back contains "0xab" |
| `BackendFacts.GModeToggleTraces` | fanctl/src/backend.rs:103-113 | the query is the first operation; on a set bit the trace is GMODE_OFF, GMODE_FLAG_OFF, "powersave", otherwise GMODE_ON, GMODE_FLAG_ON, "performance" |
| `BackendFacts.GModeSuccessiveToggles` | fanctl/src/backend.rs:103-125 | for any read-back containing "0xab" and then any without it, the two runs are exactly the query, GMODE_OFF, GMODE_FLAG_OFF and the "powersave" step, then the query, GMODE_ON, GMODE_FLAG_ON and the "performance" step |
| `Tray.InitialMode` | fanctl/src/tray.rs:11-22 | the startup belief is G-Mode iff the query says on, otherwise Balanced, and never Quiet or Performance |
| `Tray.BeliefIsLastConfirmed` | fanctl/src/tray.rs:31-42 | after any requests, the belief is the mode of the last successful one, or the initial belief if none succeeded |
| `Tray.IconName` | fanctl/src/tray.rs:45-53 | a mode's icon is "fan-" followed by its token |
| `Tray.IconNamesDistinct` | fanctl/src/tray.rs:45-53 | each mode has its own icon name |
| `Tray.Menu` | fanctl/src/tray.rs:76-126 | one item per mode, each requesting its own mode and labelled with that mode's name; exactly the believed mode's item carries "emblem-default" |
| `Tray.FanTray.constructor` | fanctl/src/tray.rs:11-22 | issues the G-Mode query and starts with `InitialMode` of its answer and no requests |
| `Tray.FanTray.SetMode` | fanctl/src/tray.rs:24-43 | spawns `pkexec fanctl <token>`; the belief becomes the mode iff the child exited successfully, otherwise it is unchanged; the request is appended to the history |
| `Tray.FanTray.GetIconName` | fanctl/src/tray.rs:45-53 | the tray shows the icon "fan-" + token of the believed mode |
| `Tray.FanTray.CurrentMenu` | fanctl/src/tray.rs:76-126 | the menu built from the belief has seven items; the believed mode's item is the only checked one, and it requests that mode |
| `Tray.FanTray.Activate` | fanctl/src/tray.rs:84-115 | activating a mode item requests exactly that item's mode |
| `Cli.Parse` | fanctl/src/main.rs:11-35 | fewer than 2 arguments is a usage error; `args[1]` alone decides: a mode token gives that mode, "status" the query, "tray" the tray, anything else is invalid |
| `Cli.ParseAsStr` | fanctl/src/main.rs:16-20 | parsing a mode's token gives that mode back, whatever arguments follow |
| `Cli.PkexecRunsRequestedMode` | fanctl/src/tray.rs:26-29 | the tray's child is `pkexec`, and the `fanctl` command line it runs parses to the requested mode |
| `Cli.ApplyExit` | fanctl/src/backend.rs:50-86 | a mode application exits 0 with nothing printed iff it succeeded, otherwise 1 with its one diagnostic on stderr |
| `Cli.StatusLine` | fanctl/src/main.rs:22-26 | the status line is "G-Mode: " followed by "ON" exactly when the bit reads on |
| `Cli.Fanctl` | fanctl/src/main.rs:8-36 | usage and invalid-token errors exit 1 with no I/O; "status" only queries and prints "G-Mode: ON"/"G-Mode: OFF"; a mode token runs exactly `ApplyRun` and exits 0, or 1 with the diagnostic |

## Left out

- Real file I/O on `/proc/acpi/call` and the cpufreq directories. The platform's answers are inputs (`Hardware`).
- An ACPI write's success depends only on its payload (`rejected`). Within one mode the payloads are pairwise distinct and differ from the query payload (`PlanFor`), so each write's failure can still be injected separately. A write that fails at one moment and succeeds at another is not modelled.
- The firmware's reaction to the payloads is not modelled. Writing GMODE_ON does not change what the next read-back yields; the caller sets the read-back between calls.
- Entries that `read_dir` cannot read (dropped by `flatten`) are simply absent from the listing.
- The per-policy "Failed to write to …" diagnostics are not part of `Ended.stderr`, because they carry OS error text.
- The tray's own diagnostics "Failed to set mode: …" and "Failed to execute pkexec: …" are not modelled. They change no state, and the second carries OS error text.
- `process::exit` is an outcome value, not the end of the program.
- Spawning `pkexec` is an input (`ChildStatus`): spawn failure, an exit code, or death by a signal.
- ksni rendering, `title` and `tool_tip` strings, the `enabled` flag, the glib main loop, the Ctrl-C handler and the Quit item's `exit(0)` are left out. The Quit item is present in the menu, but its effect is not modelled.
- The `Arc<Mutex<_>>` around the cached mode, and races between concurrent `set_mode` calls, are left out. The cell is a plain field.
- The `tray` subcommand builds the tray (with its G-Mode query) and returns `TrayRunning`; the event loop is not modelled.
