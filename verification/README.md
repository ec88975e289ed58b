# ft_p: the FSM engine and the FTP server loop, in Dafny

This project models the core of the `ft_p` FTP server, which is written in C.

- **The FSM engine** (`src/fsm.h`). A transition table lists, for each state,
  the entries `(event code, optional action, next state)`; the list ends with
  the default entry `FSM_E_DEFAULT`. `fsm_trigger` scans the current state's
  list with a cursor, runs the matched entry's action, lets the catch hook
  replace a negative result, and re-dispatches while the result is positive.
  It then writes the matched entry's next state.
- **The FTP session protocol** (`src/ftp.c`). This covers:
  - the event and state codes;
  - the constant table `stt`;
  - the `on_open` greeting action.
- **The FTP server** (`src/ftp.c`). This covers:
  - the client table and its slot lookup `cli_find` and release `cli_close`;
  - the port check and outcome of `ftp_srv_open`;
  - one event-loop iteration, `ftp_srv_start`. It accepts into the first free
    slot (or greets and drops the connection when the table is full), fires
    or remembers each slot's deadline, receives on ready slots, and computes
    the next wait.

Files:

- `wrappers.dfy`: `Option`.
- `fsm.dfy`, module `Fsm`:
  - the engine as functions (`Scan`, `Dispatch`);
  - the `struct fsm` record as the class `Machine`, whose `Trigger` method is
    the nested loop of `fsm_trigger`, proved against `Dispatch`.
- `time.dfy`, module `Time`: `struct timeval` as a `(sec, usec)` pair, with
  `timercmp` and `timersub` written out as glibc defines them.
- `ftp_proto.dfy`, module `FtpProto`:
  - the codes and the `stt` table;
  - `Next`, a reference definition of the session lifecycle;
  - lemmas showing what every trigger from the server does.
- `ftp_server.dfy`, module `FtpServer`:
  - the client table as values (`Slot`);
  - one loop iteration as the function `Iteration`, with lemmas about it;
  - `struct ftp_cli` and `struct ftp_srv` as the classes `Cli` and `Server`.
    `Server.Start` is `ftp_srv_start`, proved against `Iteration`.

How the model represents what the C code gets from outside:

- **Actions.** An action is not code here. The k-th action call made by one
  trigger returns the k-th element of a finite sequence of action results. A
  trigger that would need more results than are supplied ends as
  `Exhausted`. This is how the model expresses a trigger that, in C, keeps
  re-dispatching and never returns.
- **The catch hook** is a function from the error code to the replacement
  code.
- **System calls.** The results of `gettimeofday`, `select`, `accept`, `write`
  and `recv` are inputs to an iteration (`Inputs`).
- **`FTP_MAX_CLIENT`** is the length of the client array; its value is not
  part of this model.

Behaviours of the code worth knowing:

- **Deadline firing.** A deadline fires only when it is strictly earlier than
  the clock reading (`timercmp(timeout, now, >=) == 0`). A deadline equal to
  the clock does not fire.
- **Wake-up deadline.** The loop keeps the latest pending deadline: a
  deadline replaces the remembered one whenever it is not earlier than it.
  See `WakeIsLatest`.
- **Successful greeting.** A successful greeting (write returns n > 0) leaves
  the session in S_IDLE. The byte count is positive, so it is dispatched
  again from the E_OPEN entry and lands on S_IDLE's default entry, which
  keeps S_IDLE. See `OpenFromIdle`.
- **Zero-byte read.** Only a negative recv result closes a slot; a zero-byte
  read triggers E_RECV like any other read.
- **No pending deadline.** The timeout handed back is all zero.
- **Full table.** When the table is full, a positive write count is left in
  the result and returned unless a later trigger resets it. See `StartResult`.

## Model

| member | source | states |
|---|---|---|
| Fsm.Scan | src/fsm.h:120-121 | the entry chosen is the first one, from the cursor on, whose code is the event or the default code; no entry before it matches either |
| Fsm.Dispatch | src/fsm.h:117-136 | the dispatch loop returns a code that is not positive, stops on an entry at or after the starting cursor, and uses the action results from i on, at most all of them |
| Fsm.DispatchFromStart | src/fsm.h:117-136 | reference lookup that restarts every chained dispatch at the start of the list; it has the same bounds on its result |
| Fsm.DefaultFallback | src/fsm.h:120-121 | an event without an explicit entry lands on the default entry, and no default entry comes before it |
| Fsm.NoActionYieldsZero | src/fsm.h:123 | a matched entry without an action ends the trigger with 0 on that entry, whatever the incoming code, and uses no action result |
| Fsm.CatchSubstitutes | src/fsm.h:132-133 | (about `Fsm.Intercept`) a negative action result is returned unchanged without a hook; with a hook it is replaced by the hook's value, which is returned when it is not positive and dispatched again when it is |
| Fsm.ChainStartsAtMatch | src/fsm.h:117-136 | a positive result is dispatched again from the entry that produced it; the final entry is never before it |
| Fsm.CursorQuirkObservable | src/fsm.h:117-136 | on a concrete list, the carried cursor reaches the default entry where a lookup from the start would take an earlier entry |
| Fsm.HeadActionAgrees | src/fsm.h:117-136 | when only the first entry of a list can carry an action, the engine agrees with the from-the-start lookup |
| Fsm.PositiveDefaultNeverReturns | src/fsm.h:117-136 | a default entry whose action keeps returning positive values never lets the trigger return, however many results are supplied |
| Fsm.DefaultLoopFromStart | src/fsm.h:117-136 | a trigger whose event has no entry before an acting default entry, and whose results are all positive, never returns, starting from the first entry as every trigger does |
| Fsm.Machine.constructor | src/fsm.h:60-65 | a zero-filled record: no table, no hook, state 0 |
| Fsm.Machine.Init | src/fsm.h:73-77 | the table and state are set and the hook is cleared; the machine is usable exactly when the table is well formed and the state indexes it |
| Fsm.Machine.Catch | src/fsm.h:86-89 | only the hook changes |
| Fsm.Machine.State | src/fsm.h:96-99 | returns the current state |
| Fsm.Machine.Trigger | src/fsm.h:108-139 | the result is the dispatch of the event in the current state's list. When the trigger returns, the state is the final entry's next state; otherwise it is unchanged. The table and the hook never change, and the machine stays usable |
| Time.CompareIsTimeOrder | src/ftp.c:178-182 | (about `Time.Less` and `Time.GreaterEq`) on normalised values, both timercmp forms agree with time order |
| Time.SubMeasuresDistance | src/ftp.c:205 | (about `Time.Sub`) on normalised values, timersub gives a normalised value that measures the distance |
| Time.NotLessTransitive | src/ftp.c:182 | "not earlier than" is transitive |
| FtpProto.SttWellFormed | src/ftp.c:75-98 | four lists, each ending with a default entry that keeps the state; next states are in range; on_open, on S_IDLE's first entry, is the only action |
| FtpProto.QuietDispatch | src/ftp.c:75-98 | any event other than E_OPEN in S_IDLE ends with 0, uses no action result, and moves to the state the lifecycle `Next` gives (the four explicit transitions; otherwise the state is kept) |
| FtpProto.OpenFromIdle | src/ftp.c:69-79 | E_OPEN in S_IDLE runs on_open once. A positive byte count ends with 0 back in S_IDLE, zero ends with 0 in S_WAIT_USER, and an error ends in S_WAIT_USER returning the error |
| FtpProto.SttCursorHarmless | src/ftp.c:75-98 | in this table the carried cursor is harmless: every trigger agrees with the from-the-start lookup |
| FtpServer.FindSlot | src/ftp.c:44-49 | the lowest slot holding fd, or None exactly when no slot holds it |
| FtpServer.SrvOpen | src/ftp.c:100-138 | out-of-range ports are rejected with EINVAL before any socket exists. The server listens exactly when the port is in range, the socket exists and setup succeeded, and then the listener is watched. A socket that exists is closed on abort |
| FtpServer.Accept | src/ftp.c:148-167 | the listener block keeps the table size and every occupied slot in a protocol state (its cases: `AcceptIntoFreeSlot`, `AcceptTableFull`, `AcceptNothing`) |
| FtpServer.Receive | src/ftp.c:186-202 | the receive half keeps the slot in a protocol state (its effect: `VisitNeverStops`) |
| FtpServer.VisitSlot | src/ftp.c:174-202 | one slot pass keeps the slot in a protocol state (its effect: `VisitNeverStops`) |
| FtpServer.Loop | src/ftp.c:171-203 | the slot loop keeps the table size and every occupied slot in a protocol state (its effect: `LoopPointwise`) |
| FtpServer.Iteration | src/ftp.c:140-207 | one iteration keeps the table size and every occupied slot in a protocol state (its effect: `StartResult`, `LoopPointwise`, `WakeIsLatest`) |
| FtpServer.VisitNeverStops | src/ftp.c:174-202 | a slot pass never stops the loop; it does what `SlotAfter` says, closes the socket exactly on a negative read, sets the result to 0 exactly when a trigger ran, and remembers a pending deadline not earlier than the remembered one |
| FtpServer.LoopPointwise | src/ftp.c:144-205 | (about `FtpServer.Loop` and `FtpServer.WaitFor`) the slot loop applies `SlotAfter` to every slot, unwatches exactly the closed sockets, gives 0 when some trigger ran (otherwise the incoming result), and writes the remembered deadline minus now |
| FtpServer.WakeIsLatest | src/ftp.c:177-183 | the remembered deadline is None exactly when nothing is pending; otherwise it is a pending deadline and no pending deadline is later |
| FtpServer.AcceptIntoFreeSlot | src/ftp.c:155-166 | the lowest free slot gets the new socket in S_IDLE (positive write) or S_WAIT_USER, the socket is watched, and a failed greeting is returned at once |
| FtpServer.AcceptTableFull | src/ftp.c:156-158 | with the table full, the table and the watched set are unchanged and the write result is the result; it is returned at once when negative |
| FtpServer.AcceptNothing | src/ftp.c:148-153 | with the listener not ready, or accept failing, the table and the watched set are unchanged; a failed accept returns -1 at once |
| FtpServer.StartResult | src/ftp.c:140-207 | the result is -1 when the clock or accept fails and the greeting's error when it fails. Otherwise it is 0 when some trigger ran in the loop, or else the full-table write count or 0 |
| FtpServer.NoDeadlineLeftExpired | src/ftp.c:177-181 | after the loop no occupied slot holds a deadline earlier than now, so each expired deadline fires once |
| FtpServer.WaitNotNegative | src/ftp.c:205 | with normalised times the next wait is normalised and not negative; it is zero when nothing is pending, otherwise the remembered deadline minus now |
| FtpServer.StartKeepsWatched | src/ftp.c:148-203 | if accept hands out a descriptor no slot holds, every occupied socket stays watched and no two occupied slots share a socket |
| FtpServer.AcceptKeepsWatched | src/ftp.c:148-167 | the listener block keeps occupied sockets watched and distinct when accept hands out a descriptor no slot holds |
| FtpServer.LoopKeepsWatched | src/ftp.c:171-203 | the slot loop keeps occupied sockets watched and distinct: it only frees slots and unwatches their sockets |
| FtpServer.TerminatorOverflowsAsWritten | src/ftp.c:189-200 | for every table size and watched set there are a table, a listener and inputs within the recv length as written where the iteration gets past the clock and the listener block, the first slot the loop visits is occupied and ready, and its read is not negative but puts the terminator store outside the buffer; the corrected bound excludes those inputs |
| FtpServer.TerminatorFitsCorrected | src/ftp.c:189-200 | with recv asked for BUF_SIZE bytes, every terminator store is inside the buffer |
| FtpServer.Cli.constructor | src/ftp.c:130-133 | a zeroed client slot: free, no deadline, a zeroed FSM |
| FtpServer.Server.constructor | src/ftp.c:129-133 | the server record holds the listener and the watched set, and every slot is free with no deadline |
| FtpServer.Server.Find | src/ftp.c:44-49 | the scan returns the lowest slot holding fd, or None |
| FtpServer.Server.Close | src/ftp.c:33-42 | the slot's socket is unwatched and the slot freed; nothing else changes |
| FtpServer.Server.Admit | src/ftp.c:148-167 | the listener block does what `Accept` says |
| FtpServer.Server.Seat | src/ftp.c:160-165 | the slot takes the socket, which is watched; the session ends in S_IDLE after a positive write and in S_WAIT_USER otherwise; the slot keeps its deadline; a failed write is the result, and 0 otherwise |
| FtpServer.Server.FireTimeout | src/ftp.c:178-181 | the deadline is disarmed and the session takes its timeout transition with result 0 |
| FtpServer.Server.Deliver | src/ftp.c:189-202 | for a read of at most BUF_SIZE bytes the terminator store stays in bounds, and the session takes its receive transition with result 0 |
| FtpServer.Server.ServeSlot | src/ftp.c:174-202 | for reads of at most BUF_SIZE bytes, one slot pass is one step of `Loop`: the rest of the loop from slot i on the table and watched set on entry equals the rest from slot i + 1 on the new ones, or the stopped result. Only slot i changes, and the remembered pointer designates a slot holding the remembered deadline |
| FtpServer.Server.Sweep | src/ftp.c:169-205 | for reads of at most BUF_SIZE bytes, the slot loop and the wait computation do what `Loop` says |
| FtpServer.Server.Start | src/ftp.c:140-207 | for reads of at most BUF_SIZE bytes, the result, the wait, the table and the watched set are those `Iteration` gives; the clock reading is stored |

## Left out

- The system calls themselves (`socket`, `setsockopt`, `bind`, `listen`, `accept`, `recv`, `write`, `gettimeofday`, `close`) and the `fd_set` internals: their results are inputs, and the watched set is a set of integers.
- The client address (`addr`) and its use in diagnostics: the `fprintf`, `inet_ntoa` and `strerror` calls of `cli_close`, and `errno`. Only the close-and-clear effect is modelled.
- `container_of` and `offsetof`: the model does not need to recover a client from its FSM.
- Fsm.Machine.Trigger: the optional argument (`void *arg`, here the `netbuf` view of the received bytes and its `(uint16_t)rd` size) is not modelled, because actions are oracles that do not look at it.
- Fsm.Machine.Catch: a hook with its own side effects is modelled as a pure function of the error code.
- FtpServer.Server.ServeSlot: the `to` pointer is modelled by the index of the slot it points into. The deadline it designates is not written after being remembered.
- FtpServer.Server.Start: recv results are bounded by BUF_SIZE, the corrected request of the src/ftp.c:189-200 finding. A read of BUF_SIZE + 1 bytes is possible as written and stores the terminator out of bounds (undefined behaviour), so it is outside the contract.
- FtpServer.Server.Sweep: recv results are bounded by BUF_SIZE, the corrected request of the src/ftp.c:189-200 finding; a read of BUF_SIZE + 1 bytes, undefined behaviour as written, is outside the contract.
- FtpServer.Server.ServeSlot: recv results are bounded by BUF_SIZE, the corrected request of the src/ftp.c:189-200 finding; a read of BUF_SIZE + 1 bytes, undefined behaviour as written, is outside the contract.
- FtpServer.Server.Deliver: requires a read of at most BUF_SIZE bytes, the corrected request of the src/ftp.c:189-200 finding. The received bytes and the `netbuf` view (`size == (uint16_t)rd`) are not modelled: only the terminator store and the E_RECV trigger are.
- `on_open`'s write is modelled only by its result: the bytes of the "200 command successful." reply are not modelled.
- Nothing in the code arms a client deadline, so deadlines are part of the state on entry.
- The `root` directory, the `ftp_usr` users and `netbuf.h` are not part of this model.
- `src/server.c`, an earlier prototype, is not part of this model; its `client_find` duplicates `cli_find`.
- `libft` (including `ft_vasprintf`) is not part of this model.

## Findings

| source | as written | input that shows it | evidently intended | confidence | as-written member | corrected member |
|---|---|---|---|---|---|---|
| src/ftp.c:189-200 | `recv` is asked for `sizeof data` = BUF_SIZE + 1 bytes, and then `data[rd]` is stored into a buffer of BUF_SIZE + 1 cells | a peer sends at least 4097 bytes, so recv returns rd = 4097 and the store lands one cell past the buffer | ask recv for BUF_SIZE bytes, so the terminator always fits | not executed | FtpServer.TerminatorOverflowsAsWritten | FtpServer.TerminatorFitsCorrected |
