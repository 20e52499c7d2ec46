# ipftrace2 tracer core, modelled in Dafny

ipftrace2 traces the path of packets through the Linux kernel. It attaches
one eBPF program to every kernel function that takes an `sk_buff`, then
reports each traced packet. This project models the tracer core in
`src/tracer.c`, and also `list_functions` of `src/utils.c`. The model has
these parts:

- **Attach engine** (`attach.dfy`). `attach_all` dispatches on the backend
  string to one of three strategies:
  - `kprobe`: one kprobe per symbol, driven by `symsdb_sym2info_foreach`.
  - `kprobe-multi`: one bulk attach per skb argument position.
  - `ftrace`: an fentry/fexit program pair loaded and opened per symbol.

  Each strategy moves symbols into the counters of the global `attach_stat`.
  `attach_stat` is the class `AttachStat`. Each strategy is a module-level
  method that takes the `AttachStat` object and updates its fields. Each
  method is proved against a function that gives the return value and the
  new counters.
- **Symbol database** (`symsdb.dfy`). The database and the regex are values
  holding the answers that `tracer.c` reads from them.
- **libbpf and kernel answers** (`libbpf.dfy`). Every answer from libbpf
  and the kernel is an injected oracle.
- **Perf callback** (`events.dfy`). `trace_cb` is the callback that
  dispatches raw perf records. This part also models how a stream of
  records drains through it.
- **Image builder** (`link.dfy`). Three pieces:
  - `create_tmpfile_from_image` and `do_link` are methods of a
    `FileSystem` class. They create, close and unlink temporary files.
  - `do_link` appears twice: as written, and corrected (see Findings).
  - The call order of `bpf_create` is a log of the steps it takes.
- **Shared option type** (`wrappers.dfy`). The `Option` datatype the other modules use.
- **Target images** (`images.dfy`). `get_target_image` and
  `get_default_module_image`.
- **Init-target pass** (`init_target.dfy`). `ftrace_set_init_target`
  updates the programs of a `BpfObject` in place. Each program is either
  switched off or given its first symbol as attach target.
- **Run loop** (`run.dfy`). `tracer_run` covers:
  - attach;
  - signal handlers and the optional probe-server thread;
  - the poll loop until `end`;
  - finalisation of the output and the script.
- **Function listing** (`listing.dfy`). `list_functions` prints a header,
  then every symbol the regex accepts, position by position.

Calls into code outside the core become parameters or oracles:
libbpf, libc, the kernel, the symbol database, the regex engine, the output
and the script. Functions in the `Bpf` record answer for libbpf, and
`int` parameters carry what a call returns. Where the source tests a result
only against `-1`, only `-1` is an error in the model.

The model follows the code as written, including these behaviours:

- In `attach_ftrace`, the checks after each `bpf_prog_load`
  (`src/tracer.c:247`, `:256`) test `error`, which still holds the 0 of the
  earlier symbol lookup. A failed load is therefore not caught there. Its
  descriptor goes on to `bpf_raw_tracepoint_open`.
  `FtraceLoadFailureCaughtAtOpen` shows the failure is still caught one
  step later, as long as the open rejects negative descriptors.
- `tracer_run` treats only `-1` from `pthread_create` and
  `pthread_detach` as failure.
- `bpf_create` leaves the linked file in place when `bpf_object__open`
  fails (`LinkedOutputUnlinkedIffOpened`).
- `ftrace_set_init_target` targets each position's first symbol, whether
  or not the regex accepts it.

The model rests on these assumptions:

- `symsdb_sym2info_foreach` visits the symbols in order. It stops, and
  returns -1, at the first callback that returns -1.
- `bpf_linker__new` creates its output file and holds it open until
  `bpf_linker__free`.
- libbpf stops draining records at the first one for which `trace_cb` does
  not return `LIBBPF_PERF_EVENT_CONT`.
- `MAX_SKB_POS` is 5. It is defined in `ipft.h`, which is not part of this
  model, and no proof depends on the value.

## Model

| member | source | states |
|---|---|---|
| Attach.AttachStat.constructor | src/tracer.c:34-39 | `attach_stat = {0}`: total and all three counters start at zero |
| Attach.AttachCb | src/tracer.c:41-83 | Exactly one of four outcomes per symbol. Rejected by the regex: filtered +1, returns 0. Program missing: -1, no counter moves. Kprobe attach fails: failed +1, returns -1. Otherwise: succeeded +1, returns 0. Total is never touched |
| Attach.AttachKprobe | src/tracer.c:85-96 | Return value and new counters are those of `KprobePass` over the database's symbols in order, stopping at the first -1 |
| Attach.KprobeSucceedsIff | src/tracer.c:85-96 | The kprobe pass returns 0 or -1. It returns 0 iff every symbol the regex accepts has its program and attaches |
| Attach.KprobeConservation | src/tracer.c:41-96 | On 0: every symbol was counted once (sum grows by the number of symbols) and none as failed. On -1: the sum grows by at most that number, and failed by at most 1 |
| Attach.AttachKprobeMulti | src/tracer.c:98-169 | Return value and new counters are those of `MultiUpTo` over positions 0 .. MAX_SKB_POS-1 |
| Attach.GatherMatches | src/tracer.c:129-138 | The names the regex accepts fill the front of the calloc'd array, in order. `cur` is their number, and filtered grows by the rest. `cur` never runs past the array |
| Attach.MultiAtBatch | src/tracer.c:140-157 | At one position, filtered grows by the rejected names. Exactly one of succeeded/failed grows by `cur`, as the bulk attach decides, and the position still returns 0 |
| Attach.MultiUpToResult | src/tracer.c:103-168 | The pass returns 0 iff every position has its program and its array, so a failed bulk attach never ends it. On 0, every symbol of those positions was counted once |
| Attach.MultiUpToStops | src/tracer.c:115-127 | Once a position has returned -1, later positions change nothing |
| Attach.AttachFtrace | src/tracer.c:171-288 | Return value and new counters are those of `FtracePass`. A bad BTF fd gives -1 at once; otherwise the position loop runs |
| Attach.AttachFtraceNames | src/tracer.c:221-285 | The symbol loop at one position returns 0 or -1, with the counters `FtraceNames` gives. Which counter each symbol moves is stated by `FtraceSymCounts` and `FtraceNamesCounts` |
| Attach.FtraceNamesNeverFail | src/tracer.c:221-285 | The symbol loop never moves `failed`. It returns 0 iff every accepted name is found and both opens succeed; then every name was counted once |
| Attach.FtraceUpToResult | src/tracer.c:183-287 | The position loop never moves `failed`. It returns 0 iff every position has both programs and all its accepted symbols attach; then every symbol was counted once |
| Attach.FtraceSymCounts | src/tracer.c:227-275 | One ftrace symbol moves at most one counter. A rejected name moves only filtered and gives 0. An accepted name moves only succeeded, and gives 0, iff it is found and both tracepoints open. Otherwise it gives -1 and moves nothing |
| Attach.FtraceNamesAppend | src/tracer.c:221-285 | The symbol loop over a + b is the loop over a, then, unless that returned -1, the loop over b from the counters a left. A -1 ends the pass, and no later symbol is visited |
| Attach.FtraceNamesStopsAtFailure | src/tracer.c:232-275 | The first accepted symbol that is not found or whose tracepoint open fails ends the pass with -1. The counters are then exactly those of the symbols before it, and nothing after it is counted |
| Attach.FtraceNamesCounts | src/tracer.c:221-285 | On 0 the symbol loop has added exactly the accepted names to succeeded and the rejected names to filtered, and left failed alone. On -1 neither has grown by more than that, and failed has not moved |
| Attach.FtraceUpToCounts | src/tracer.c:183-287 | On 0 the position loop has added every accepted symbol of the positions to succeeded and every rejected one to filtered, and left failed alone |
| Attach.MultiUpToCounts | src/tracer.c:103-168 | On 0 the kprobe-multi loop has added every rejected symbol to filtered, and every accepted one to succeeded or failed |
| Attach.FtraceUpToStops | src/tracer.c:196-212 | Once a position has returned -1, later positions change nothing |
| Attach.FtraceLoadFailureCaughtAtOpen | src/tracer.c:243-269 | If a load returns a negative fd and the open rejects negative fds, the symbol ends the pass with -1 and no counter moves |
| Attach.FtraceNeverFails | src/tracer.c:171-288 | The ftrace backend never counts a symbol as failed |
| Attach.AttachAll | src/tracer.c:290-320 | `total` is set to the number of symbols on every path, before any strategy runs. Return value and counters are those of the strategy the backend names, and -1 for any other string |
| Attach.AttachAllConservation | src/tracer.c:290-320 | For a database whose per-position lists hold as many symbols as the database holds: a successful `attach_all` has counted every symbol once, so filtered + succeeded + failed == total from zero |
| Attach.AttachAllAcceptsTargetImageBackends | src/tracer.c:297-315 | A backend string `get_target_image` rejects makes `attach_all` return -1 with the counters untouched |
| Attach.EmptyPositionsMoveNothing | src/tracer.c:103-168 | Over an empty database, the kprobe-multi and ftrace position loops move no counter |
| Attach.AttachAllEmptyDb | src/tracer.c:290-320 | Over an empty database, no backend moves a counter, and the kprobe backend returns 0 |
| Events.TraceCb | src/tracer.c:328-351 | The output is called iff the record is a SAMPLE. A SAMPLE gives ERROR iff the output returns -1. LOST gives CONT. Any other type gives ERROR |
| Events.UnknownRecordStopsStream | src/tracer.c:335-350 | N SAMPLE/LOST records whose outputs succeed, then an unknown record: the output is called once per SAMPLE, and the stream stops at the unknown record |
| Events.BenignStreamDrains | src/tracer.c:335-350 | Records that all pass call the output once per SAMPLE, and the stream never stops |
| Events.OutputOnlyForSamples | src/tracer.c:335-341 | The output is never called more often than there are SAMPLE records. A stop lands on a record of the stream |
| Images.GetTargetImage | src/tracer.c:492-509 | An image is returned iff the backend is "kprobe", "kprobe-multi" or "ftrace". It is never the module image |
| Images.TargetImageInjective | src/tracer.c:492-509 | Distinct backends get distinct target images |
| Images.GetDefaultModuleImage | src/tracer.c:511-517 | The default module image is none of the target images |
| Link.FileSystem.CreateTmpfileFromImage | src/tracer.c:390-423 | Returns 0 iff strdup, mkstemp and write all succeed; then the file exists and is open. On -1 no file and no descriptor is left, including after a failed write |
| Link.FileSystem.DoLinkAsWritten | src/tracer.c:425-490 | On every path both image temp files are closed and unlinked, and no descriptor stays open. The result and the output file left behind are those of `AsWrittenStatus` |
| Link.AsWrittenStatus | src/tracer.c:425-490 | As written: returns 0 or -1, and a name is set only with 0. 0 with a name iff every step succeeds. 0 without a name iff both temp files succeed and `bpf_linker__new` fails. On every other path, a failed temp file or a -1 linker call, it returns -1 without a name, as the corrected do_link does. The output file is left iff `bpf_linker__new` succeeded |
| Link.AsWrittenLinkerNewFailureReportsSuccess | src/tracer.c:452-456 | When `bpf_linker__new` fails, do_link as written returns 0 without setting the name, where the corrected one returns -1 |
| Link.AsWrittenLinkFailureLeavesOutput | src/tracer.c:460-482 | When a linker call fails, do_link as written leaves the linker's output file behind, and the corrected one does not |
| Link.DoLinkStatus | src/tracer.c:425-490 | Corrected: returns 0 or -1, and 0 iff every step succeeds. A name is set iff it returns 0, and the output file outlives the call iff it is handed back |
| Link.FileSystem.DoLink | src/tracer.c:425-490 | Corrected do_link: every file it creates is gone afterwards except the output it hands back, and no descriptor stays open. The result is that of `DoLinkStatus` |
| Link.BpfCreate | src/tracer.c:578-656 | Returns 0 or -1. An unsupported backend or a failed `script_get_program` does nothing. The steps taken are a prefix of the full order (link, open, unlink, init-target for ftrace only, load, config update). Every step but the last succeeded, and on -1 the last one is the step that failed, so bpf_create stops at the first failure. 0 iff the backend is supported, the script program (if any), do_link, the open, the init-target pass (ftrace), the load and the map update all succeed |
| Link.InitTargetOnlyForFtrace | src/tracer.c:629-635 | The init-target pass runs only for the ftrace backend, and never after the load |
| Link.LinkedOutputUnlinkedIffOpened | src/tracer.c:621-627 | After a successful link, the linked file is unlinked iff `bpf_object__open` succeeds |
| InitTarget.BpfObject.constructor | src/tracer.c:519-520 | The object holds the programs it is opened with |
| InitTarget.FtraceSetInitTarget | src/tracer.c:519-576 | The return value and the programs left behind are those of `InitFrom` from position 0 |
| InitTarget.InitAtSucceedsIff | src/tracer.c:524-573 | One position returns 0 iff both its programs exist and, when it has a first symbol, neither set_attach_target returns -1. The set of programs is unchanged |
| InitTarget.InitFromKeepsPrograms | src/tracer.c:519-576 | Whatever it returns, the pass keeps the set of programs |
| InitTarget.InitFromSucceedsIff | src/tracer.c:519-576 | The pass returns 0 or -1. It returns 0 iff every position has both programs and no set_attach_target on a first symbol returns -1 |
| InitTarget.InitAtExpected | src/tracer.c:555-572 | A successful position step leaves each program as `Expected` says. Programs of other positions and of the module are untouched |
| InitTarget.InitFromConfigures | src/tracer.c:519-576 | After a successful pass the programs are exactly `Expected`. Without a symbol: autoload off. With one: targeted at it when set_attach_target returns 0. All else unchanged |
| InitTarget.SuccessfulPassConfiguresPositions | src/tracer.c:555-572 | After a successful pass, a position without a symbol has both programs switched off. A position with one has each program targeted at its first symbol when set_attach_target returns 0. The source lets any other result except -1 through as well; what it leaves is stated by `InitFromConfigures` |
| Run.TracerRun | src/tracer.c:722-774 | The outcome and the calls made are those of `RunSpec` |
| Run.PollLoopExits | src/tracer.c:747-755 | The loop ends normally only once `end` is seen. A negative poll with `end` clear ends it with an error at once. Every earlier poll was non-negative with `end` clear |
| Run.AttachFailureInstallsNothing | src/tracer.c:728-732 | A failed `attach_all` returns -1 before any handler is installed |
| Run.SetupAndPollsDoNotFinalise | src/tracer.c:734-755 | Nothing before the end of the poll loop finalises the output or the script |
| Run.RunOutcomes | src/tracer.c:722-774 | tracer_run returns 0 or -1, or is still polling when the input ends inside the loop. It returns -1 iff attach_all or the probe-server start-up fails, a poll fails with `end` clear, or output_post_trace returns -1 |
| Run.RunLogStartsWithLoop | src/tracer.c:734-763 | Once the loop runs, the calls start with the set-up calls and then the polls. output_post_trace, when it runs, comes right after the last poll |
| Run.ScriptFiniOnce | src/tracer.c:769-771 | script_exec_fini runs at most once, and exactly when tracer_run returns 0 with a script |
| Run.Finalisation | src/tracer.c:757-773 | `output_post_trace` runs once iff the loop ends on `end`. `script_exec_fini` runs, last and right after it, iff a script exists and the output did not return -1. tracer_run returns 0 iff the loop ended on `end` and the output did not fail |
| Listing.NameField | src/utils.c:50 | The printed name column of a row holds at most 64 characters. It is a prefix of the name, and the whole name when it fits |
| Listing.ListFunctions | src/utils.c:15-56 | Returns 0 or -1, and -1 iff regex_create or symsdb_create returns -1; then nothing is printed. On 0 it prints the header, then the rows of positions 0 .. max-1 |
| Listing.ListPosition | src/utils.c:47-52 | The inner loop prints the rows of `Matches`: one row per accepted entry of the array, in index order (`MatchesInArrayOrder`) |
| Listing.MatchesIff | src/utils.c:47-52 | A row is printed for a position iff its symbol is in the position's array and the regex accepts it. Its name column is then the 64-character cut of the name |
| Listing.AcceptedIndices | src/utils.c:47-49 | The indices of the array whose symbols the regex accepts, all of them and no other, in strictly increasing order |
| Listing.MatchesInArrayOrder | src/utils.c:47-52 | The rows of one position follow the array. There is one row per accepted entry, so a symbol listed twice gets two rows. The k-th row is the entry at the k-th accepted index, in increasing index order |
| Listing.RowsAtIff | src/utils.c:43-52 | A position whose array is NULL prints nothing. Otherwise it prints exactly the accepted symbols, each with its name column |
| Listing.RowIffMatch | src/utils.c:42-53 | A row (sym, pos) is printed iff pos is below the maximum, the array of pos is not NULL, it holds sym, and the regex accepts sym. Its name column is then the 64-character cut of sym's name |
| Listing.MatchesAtPos | src/utils.c:47-52 | Every row printed for a position carries that position |
| Listing.RowsOrdered | src/utils.c:42-53 | Rows come in non-decreasing position order, all below the maximum |
| Listing.HeaderOnce | src/utils.c:40-53 | The header is printed once, first, and everything after it is a symbol row |

## Left out

- Progress and error messages on stderr (`fprintf`, `fflush`) are not modelled. The listing header and rows are modelled as one sequence of lines, though they go to stderr and stdout.
- `sprintf` failures on the fixed program names, and the `%d` formatting of the names. Programs are named `Main(i)` / `MainReturn(i)` directly.
- Field widths, padding and the hex address format of the listing rows. `Listing.NameField` models only the 64-character precision.
- `perf_buffer_create`, `tracer_create`, `handle_signal` and `handle_tcp_probe`. These are setup and I/O. `end` is an input observed before each poll test, and the probe-server thread is only its two start-up calls.
- `probe_kprobe_multi` and the rest of `src/utils.c` are outside the listing; only `list_functions` is modelled.
- The symbol database, regex engine, output and script modules are not part of this model. Their answers are parameters.
- Memory: the leaks of `strdup` names, the calloc'd arrays of `attach_kprobe_multi`, unfreed links and objects, and the `tmpnam` buffer.
- `mkstemp` and `tmpnam` randomness. The fresh names are parameters, required to be unused. The race between `tmpnam` and `bpf_linker__new` is not modelled.
- The order of the unlinks in `do_link`'s error ladder (the module temp file before the target temp file). `Link.FileSystem` keeps its files as a set, so the model states which files are gone afterwards but not the order in which they went.
- Short writes in `create_tmpfile_from_image`. Only `write` returning -1 is an error, as in the source.
- `size_t` counters are unbounded naturals. Wrap-around is not modelled.
- Attach.AttachAllConservation: stated for a database whose per-position lists hold as many symbols as the database holds (`Consistent`), because the kprobe backend counts the symbol table while the other two count the per-position lists. Without that, only each strategy's own conservation holds.
- Link.BpfCreate: uses the corrected `do_link`. As written, a failed `bpf_linker__new` would go on to `bpf_object__open` with an unset name, which the model does not follow.
- Link.FileSystem.CreateTmpfileFromImage: a `mkstemp` failure leaks the `strdup`'d name. Only files and descriptors are modelled, not memory.
- Run.TracerRun: the thread's own work and the signal handler's reset of the signal dispositions are not modelled.

## Findings

| source | as written | input that shows it | evidently intended | confidence | as-written member | corrected member |
|---|---|---|---|---|---|---|
| src/tracer.c:452-456 | When `bpf_linker__new` returns NULL, `goto err1` returns `error`. That still holds the 0 of the second `create_tmpfile_from_image`, so `do_link` reports success and leaves `*namep` unset. `bpf_create` then opens an uninitialised name | Both temp files written, `bpf_linker__new` fails | `do_link` returns -1 | high (not executed) | Link.AsWrittenLinkerNewFailureReportsSuccess | Link.DoLinkStatus |
| src/tracer.c:460-482 | When `bpf_linker__add_file` or `bpf_linker__finalize` returns -1, `err2` frees the linker but nothing unlinks the output file `bpf_linker__new` created. It is left in /tmp, against the file's own comment that every tmpfile must be unlinked | Both temp files written, `bpf_linker__new` succeeds, the first `bpf_linker__add_file` returns -1 | Remove the output file on the error path | medium (not executed; rests on `bpf_linker__new` creating the file) | Link.AsWrittenLinkFailureLeavesOutput | Link.FileSystem.DoLink |
