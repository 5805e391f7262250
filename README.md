# rclip — a verified model of its startup and connection dispatch

rclip bridges a desktop clipboard to the network. It listens on two TCP
ports. A connection to the *copy* port is handed to a forked `sh -c <copy
command>` that reads it on standard input. A connection to the *paste* port is
handed to `sh -c <paste command>`, which writes it on standard output. The
whole program is `rclip.c`. This project models its four pieces of decision
logic in Dafny and proves what they promise:

- **Port validation** (`PortParse`, port.dfy): `parse_port` on top of ISO C
  `strtol` with base 10 (section 7.22.1.4 of ISO/IEC 9899:2011). This covers
  white space, sign, digits, `long` overflow to `LONG_MAX`/`LONG_MIN` with
  ERANGE on an LP64 target, and GCC's modulo conversion of the `long` result
  to `int`. errno is an input, because `parse_port` does not clear it.
- **Startup** (`Startup`, startup.dfy): default commands from
  `WAYLAND_DISPLAY`/`DISPLAY`, the getopt loop that reassigns the commands and
  the bind address, the operand and command checks, both port checks and both
  `make_sock` calls. The result is an exit code or a configuration, plus the
  list of `make_sock` calls made. getopt_long's output, inet_aton and
  make_sock are inputs. `ResolveConfig` is the imperative loop; `Resolve` is
  its specification.
- **Descriptor table and child wiring** (`FdTable`, fdtable.dfy): a process's
  descriptor table as an array. New descriptors take the lowest closed slot,
  as Linux allocates them. `dup2` updates the table in place, and
  `WireChild` runs the child's `shutdown` and three `dup2` calls per direction.
- **Serving loop** (`MainLoop`, mainloop.dfy): class `Server` holds the
  `poll_fds` array (whose `revents` it writes and resets), the parent's
  descriptor table, and the record of dispatched children. `Drain` is the
  `accept4` loop of one listener, `Step` is one `poll` iteration, and `Run` is
  the outer loop. Each is proved against a specification function
  (`DrainSpec`, `StepSpec`, `RunSpec`). Lemmas about those functions state the
  properties that matter. The environment is a script: each `Round` is one
  return of `poll` with what each listener's successive `accept4` calls
  return. Past the end of a listener's script its queue is empty and
  `accept4` fails with EAGAIN. Past the last round, the process is still
  waiting in `poll`.

The readiness test `!(poll_fds[i].revents | POLLIN)` is reproduced literally
on 16-bit values. It never holds, so every `poll` return drains both
listeners, copy first. `Step` proves this.

The model follows the code in these places, where its behaviour is easy to
misread:
- Both listeners are drained on every wake, not only the ready ones.
- The copy listener is always drained before the paste listener.
- A command given as an empty string (`-c ''`) is accepted. Only a missing
  (NULL) command is an error.
- Exit code 2 covers both socket setup failures and runtime failures.

## Model

| member | source | states |
|---|---|---|
| `PortParse.Strtol10` | rclip.c:40 | strtol's result always lies in the range of `long` |
| `PortParse.Clamp` | rclip.c:40 | an out-of-range value becomes LONG_MAX/LONG_MIN with ERANGE set; an in-range value is returned unchanged with no ERANGE |
| `PortParse.ToInt32` | rclip.c:40 | the `long`-to-`int` conversion lands in the 32-bit range, is congruent to its input modulo 2^32, and leaves in-range values unchanged |
| `PortParse.ParsePortAsWritten` | rclip.c:38-50 | `parse_port` as written returns -1 or a port in 1..65535, never 0 and never above 65535 |
| `PortParse.ParsePort` | rclip.c:38-50 | the corrected `parse_port` returns -1 or a port in 1..65535; an accepted port is exactly the value strtol converted, with nothing left over and errno 0 on entry |
| `PortParse.ErrnoAfterParse` | rclip.c:40 | after `parse_port`, errno is unchanged or ERANGE |
| `PortParse.RenderDigits` | rclip.c:40 | the plain decimal rendering of n is a non-empty digit string without a leading zero whose value is n |
| `PortParse.StrtolRender` | rclip.c:40 | strtol converts the plain rendering of any n up to LONG_MAX to exactly n, consuming everything, without ERANGE |
| `PortParse.PortRoundTrip` | rclip.c:38-50 | for every n in 1..65535, both versions of `parse_port` accept the decimal rendering of n as n when errno is 0 |
| `PortParse.StaleErrnoRejects` | rclip.c:40-42 | a non-zero errno on entry rejects every string, because errno is not cleared first |
| `PortParse.TrailingRejects` | rclip.c:43 | digits followed by a non-empty tail that does not start with a digit are rejected |
| `PortParse.LeadingSpaceIgnored` | rclip.c:40 | a leading space never changes the outcome, because strtol skips white space |
| `PortParse.AsWrittenAcceptsWrapped` | rclip.c:40-44 | as written, "4294967376" with errno 0 is accepted as port 80; the corrected version rejects it |
| `PortParse.WrappedParses` | rclip.c:40-44 | the decimal rendering of 2^32 + 80 passes the as-written guard as port 80 and is rejected by the corrected one |
| `PortParse.AcceptedMeansValue` | rclip.c:38-50 | with the corrected test, a digit string is accepted if and only if errno is 0 and its value is in 1..65535, and then the port is that value |
| `Startup.Defaults` | rclip.c:107-114 | a non-empty WAYLAND_DISPLAY gives the wl-clipboard commands whatever DISPLAY says; otherwise a non-empty DISPLAY gives the xclip commands; otherwise there are no defaults, and either both commands are set or neither is |
| `Startup.ResolveConfig` | rclip.c:86-168 | the imperative getopt loop that reassigns the commands and bind address gives exactly the outcome and `make_sock` calls of `Resolve` |
| `Startup.OpenEndpoints` | rclip.c:148-168 | fewer than 2 operands or a missing command exits 1, and so does a rejected port, all with no `make_sock` call; exit 1 happens exactly when no socket was requested; the first call is for the copy port; a copy socket below 1 exits 2 after that one call; otherwise the paste socket is requested, and a result below 1 exits 2; serving holds the commands, the address, both ports and exactly the two descriptors `make_sock` returned |
| `Startup.ScanLastWins` | rclip.c:118-139 | when no option stops the loop, the last `-c` and the last `-p` replace the environment defaults, and the last accepted `-a` gives the bind address |
| `Startup.ScanSplit` | rclip.c:118-139 | running the getopt loop over opts followed by one option is running it over opts and then over that option |
| `Startup.FirstStopDecides` | rclip.c:118-145 | the first `-h`, unknown option or rejected address decides the exit code: 0 for `-h`, 1 otherwise; later options are not examined |
| `Startup.HelpExitsZero` | rclip.c:90-127 | no argument at all, or a `-h` before any other stopping option, exits 0 with no socket created |
| `Startup.ResolveCompleted` | rclip.c:148-168 | fewer than 2 operands, a missing command or a bad port exits 1 before any socket is made; a copy `make_sock` result below 1 exits 2 after one call, a paste result below 1 exits 2 after two, and exit 2 happens only then; otherwise the configuration holds the last `-c`/`-p` (or the defaults), the parsed ports and the two descriptors `make_sock` returned, made copy first |
| `Startup.ResolveOutcomes` | rclip.c:86-168 | every startup ends in exit 0, 1 or 2 or in a configuration with both ports in 1..65535; exit 0 and exit 1 never call `make_sock`; a failed `make_sock` (result below 1) always exits 2 and exit 2 follows only one; a configuration's sockets are the two `make_sock` results, both at least 1 |
| `Startup.ScanStopCode` | rclip.c:124-141 | the getopt loop stops only with code 0 or 1 |
| `FdTable.FirstClosed` | rclip.c:199 | the descriptor a new connection gets is closed, and every lower descriptor is open; none is free only if every slot is open |
| `FdTable.LowestClosed` | rclip.c:199 | the scan of the table finds exactly that lowest closed descriptor |
| `FdTable.Dup2` | rclip.c:226-236 | `dup2` makes newfd refer to what oldfd refers to; an invalid oldfd or newfd changes nothing |
| `FdTable.ShutFor` | rclip.c:223-232 | the copy child shuts the write half and the paste child shuts the read half |
| `FdTable.WireChild` | rclip.c:223-236 | the child's table after its three `dup2` calls; with the connection and the null device above descriptor 2: copy gets 0←connection and 1,2←null, paste gets 0,2←null and 1←connection, and nothing else changes |
| `FdTable.WiredStdio` | rclip.c:223-236 | the per-direction wiring of descriptors 0..2 on the table as a value, with every descriptor above 2 unchanged |
| `FdTable.WiredNeedsHighNull` | rclip.c:232-236 | the wiring relies on the null device not being descriptor 1: a paste child would then get the connection on descriptor 2 as well |
| `MainLoop.DrainFacts` | rclip.c:198-245 | a drain exits only with 2; one that does not exit leaves the parent's table as it found it and uses one serial per child, in order; every child is wired for the listener's direction and runs `sh -c` with that direction's command |
| `MainLoop.DrainIdle` | rclip.c:199-203 | with nothing pending (EAGAIN), a drain dispatches nothing, does not exit and changes nothing |
| `MainLoop.DrainOnError` | rclip.c:201-213 | a transient errno is skipped with no dispatch and no exit; any errno other than EAGAIN and the transient ones exits 2 |
| `MainLoop.StepFacts` | rclip.c:186-249 | one poll iteration keeps the drain facts, and all copy children of the round come before all paste children |
| `MainLoop.RunFacts` | rclip.c:185-250 | over any run of the outer loop, exits are 2, the parent's table is back as it was while the process keeps polling, and every child ever dispatched is wired and commanded for its direction |
| `MainLoop.ReadinessTestNeverSkips` | rclip.c:195-196 | `revents` OR POLLIN is never 0, so the `continue` is never taken |
| `MainLoop.Server.constructor` | rclip.c:170-183 | `poll_fds` holds the copy socket then the paste socket, polled for POLLIN with `revents` 0 |
| `MainLoop.Server.AcceptOne` | rclip.c:199-244 | a successful `accept4`: the connection on the lowest closed descriptor, fork, child wiring, record of the dispatch, then the parent's `close`; EMFILE or a fork failure exits 2 |
| `MainLoop.Server.Drain` | rclip.c:198-245 | the `accept4` loop of listener i does exactly what `DrainSpec` says for that listener's direction and command, and keeps the table layout |
| `MainLoop.Server.Step` | rclip.c:186-249 | one poll iteration does what `StepSpec` says: EINTR polls again, another poll error exits 2, and otherwise both listeners are drained, copy then paste, whatever `revents` holds; both `revents` are reset to 0 afterwards |
| `MainLoop.Server.Run` | rclip.c:185-250 | the outer loop does what `RunSpec` says; while it is still polling it keeps the server's invariant and leaves `poll_fds` as it was (the source never rewrites their descriptors or events) |

## Findings

| source | as written | input that shows it | evidently intended | confidence | as-written member | corrected member |
|---|---|---|---|---|---|---|
| rclip.c:40-44 | the `long` from `strtol` is stored in an `int` before the range test on `port` | port operand "4294967376" (2^32 + 80) with errno 0: strtol returns 4294967376 without ERANGE, the `int` is 80, and the port is accepted as 80; "-4294967216" is also accepted as 80 | reject every operand whose value is outside 1..65535 | not executed; assumes an LP64 `long` and GCC's modulo conversion to `int` | `PortParse.AsWrittenAcceptsWrapped` | `PortParse.AcceptedMeansValue` |

`PortParse.ParsePortAsWritten` models the code as written.
`PortParse.AsWrittenAcceptsWrapped` proves that it accepts "4294967376" as 80.
`PortParse.ParsePort` runs the range test on the `long` value.
`PortParse.AcceptedMeansValue` proves that it accepts exactly the digit strings whose value is a port.
`Startup` uses the corrected `ParsePort`.

## Left out

- `make_sock` (rclip.c:52-84): socket, bind, listen, SOCK_NONBLOCK, SOCK_CLOEXEC and the backlog of 4 are operating-system calls. The model takes the descriptor it returns as an input function of the endpoint, address and port.
- The internals of getopt_long, inet_aton, getenv, htons and htonl are library calls. Their results are inputs: getopt's results as a sequence of options plus the remaining operands, and inet_aton as a partial function.
- `usage`, `printf`, `fprintf`, `perror` and the assignment of `program_name` (rclip.c:87-88) are not modelled: they write diagnostics. Apart from the `perror` at rclip.c:205 (next line), none of them runs between a failing call and a test of its errno.
- The drain takes the errno tested by the `switch` at rclip.c:206 to be the one `accept4` set. This assumes that the `perror("error accepting")` call at rclip.c:205, just before the `switch`, leaves errno alone. POSIX does not promise that. If `perror` changed errno, a transient accept error could exit 2, or a fatal one be retried.
- The `default: abort()` branch of the option switch (rclip.c:143-144) is not modelled. getopt_long only returns the listed option letters or '?'.
- The blocking wait inside `poll` is not modelled. Only its returns are, as a script of rounds.
- `fork` is not modelled as process creation. A successful fork is a recorded `Dispatch`: the child's table after its `dup2` calls, the half it shut, and the `/bin/sh -c <command>` it executes.
- The child's `execl` failure path (`abort` in the child), the closing of close-on-exec descriptors at `execl`, and the children's concurrent execution are not modelled. None of them is visible to the parent's loop.
- The result of `open("/dev/null")` (rclip.c:170) is not checked in the source. The model takes the null device as an open descriptor above 2, passed to the `Server` constructor.
- The constructor's requirements are not derived from startup: the listeners at the returned descriptors, descriptors 0..2 in use, the null device above 2, and no connection open. They hold after a successful startup because `socket` and `open` take the lowest free descriptor and a socket on descriptor 0 is rejected, but that argument is not part of the model.
- FdTable.WiredStdio: states the intended wiring only when the connection and the null device are above descriptor 2. `FdTable.WiredNeedsHighNull` shows why this condition is needed. `MainLoop.ParentTable` guarantees it in the serving loop.
- An endless run of transient accept errors, or of EINTR returns from poll, cannot be represented, because every script is finite.
- The startup model uses the corrected `ParsePort` (see Findings). It differs from the code only for operands whose value is outside the range of `int`.
