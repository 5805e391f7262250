/** The serving half of `main`: the `poll` loop over the two listening
    sockets, the accept drain of each, and the dispatch of every accepted
    connection to a forked child that runs the clipboard command.

    The system calls whose outcome the model cannot compute are given as a
    script: each `Round` is one return of `poll` together with, for each
    listener, what its successive `accept4` calls return during that round.
    Once a listener's script is used up its queue is empty and `accept4` fails
    with EAGAIN. Descriptor numbers are not scripted: a new descriptor is the
    lowest closed slot of the table. */
module MainLoop {
  import opened Sys
  import opened FdTable
  import Startup

  /** `struct pollfd`. */
  datatype PollFd = PollFd(fd: int, events: bv16, revents: bv16)

  /** One return of `poll`: the two `revents` it wrote, or a failure with errno. */
  datatype PollEvent = PollReady(copyRevents: bv16, pasteRevents: bv16) | PollFails(errno: int)

  /** One return of `accept4`: a pending connection (with whether the `fork`
      that follows succeeds), or a failure with errno. */
  datatype AcceptEvent = Incoming(forkSucceeds: bool) | AcceptFails(errno: int)

  datatype Round = Round(poll: PollEvent, copyAccepts: seq<AcceptEvent>, pasteAccepts: seq<AcceptEvent>)

  /** A forked child as it calls `execl`: its direction, the descriptor the
      connection was accepted on, the connection's serial number, its descriptor
      table after the `dup2` calls, the half it shut, and the program it runs. */
  datatype Dispatch = Dispatch(dir: Direction, fd: nat, conn: nat, fds: seq<File>, shut: Shut,
                               path: string, argv: seq<string>)

  /** What part of the loop did: children dispatched, the exit code if the
      process exits, the next connection serial, the parent's descriptor table. */
  datatype Effect = Effect(dispatched: seq<Dispatch>, exit: Option<int>, nextConn: nat, fds: seq<File>)

  datatype Status = Polling | Exited(code: int)

  function Accepts(r: Round, i: nat): (script: seq<AcceptEvent>)
    requires i < 2
  {
    if i == 0 then r.copyAccepts else r.pasteAccepts
  }

  /** The child of a successful fork on `fd`, after its wiring, as it runs `sh -c command`. */
  function Child(parent: seq<File>, fd: nat, devnull: nat, dir: Direction, command: CStr, serial: nat): (d: Dispatch)
  {
    Dispatch(dir, fd, serial, Wired(parent, fd, devnull, dir), ShutFor(dir), "/bin/sh", ["sh", "-c", command])
  }

  /** The drain of one listener: EAGAIN (or an empty queue) ends it, a transient
      errno tries again, any other errno exits 2, and a connection is handled
      as `AcceptSpec` says. */
  function DrainSpec(dir: Direction, script: seq<AcceptEvent>, fds: seq<File>, devnull: nat,
                     command: CStr, serial: nat): (eff: Effect)
    decreases |script|
  {
    if script == [] then Effect([], None, serial, fds)
    else match script[0]
      case AcceptFails(e) =>
        if e == EAGAIN then Effect([], None, serial, fds)
        else if Transient(e) then DrainSpec(dir, script[1..], fds, devnull, command, serial)
        else Effect([], Some(2), serial, fds)
      case Incoming(forked) =>
        var s := AcceptSpec(dir, forked, fds, devnull, command, serial);
        if s.exit.Some? then s
        else
          var rest := DrainSpec(dir, script[1..], s.fds, devnull, command, s.nextConn);
          rest.(dispatched := s.dispatched + rest.dispatched)
  }

  /** One successful `accept4` and what follows it: the connection goes on the
      lowest closed descriptor (none free is EMFILE, which exits 2), a failed
      fork exits 2, and otherwise the child is dispatched and the parent closes
      the descriptor. */
  function AcceptSpec(dir: Direction, forked: bool, fds: seq<File>, devnull: nat, command: CStr, serial: nat): (eff: Effect)
  {
    match FirstClosed(fds)
    case None => Effect([], Some(2), serial, fds)
    case Some(fd) =>
      var open := fds[fd := Conn(serial)];
      if !forked then Effect([], Some(2), serial + 1, open)
      else Effect([Child(open, fd, devnull, dir, command, serial)], None, serial + 1, open[fd := Closed])
  }

  /** One iteration of the outer loop: EINTR polls again, another poll error
      exits 2, readiness drains the copy listener and then the paste listener. */
  function StepSpec(r: Round, fds: seq<File>, devnull: nat, copyCommand: CStr, pasteCommand: CStr,
                    serial: nat): (eff: Effect)
  {
    match r.poll
    case PollFails(e) => Effect([], if e == EINTR then None else Some(2), serial, fds)
    case PollReady(_, _) =>
      var d0 := DrainSpec(Copy, r.copyAccepts, fds, devnull, copyCommand, serial);
      if d0.exit.Some? then d0
      else
        var d1 := DrainSpec(Paste, r.pasteAccepts, d0.fds, devnull, pasteCommand, d0.nextConn);
        d1.(dispatched := d0.dispatched + d1.dispatched)
  }

  /** The outer loop over a finite run of poll returns; when they are used up
      the process is waiting in `poll`. */
  function RunSpec(rounds: seq<Round>, fds: seq<File>, devnull: nat, copyCommand: CStr, pasteCommand: CStr,
                   serial: nat): (eff: Effect)
    decreases |rounds|
  {
    if rounds == [] then Effect([], None, serial, fds)
    else
      var s := StepSpec(rounds[0], fds, devnull, copyCommand, pasteCommand, serial);
      if s.exit.Some? then s
      else
        var rest := RunSpec(rounds[1..], s.fds, devnull, copyCommand, pasteCommand, s.nextConn);
        rest.(dispatched := s.dispatched + rest.dispatched)
  }

  /** The parent's descriptor table between accepts: the null device above the
      standard descriptors, descriptors 0..2 in use, and no connection open. */
  ghost predicate ParentTable(fds: seq<File>, devnull: nat) {
    STDERR < devnull < |fds| && fds[devnull] == Null &&
    (forall k :: 0 <= k <= STDERR ==> fds[k] != Closed) &&
    (forall k :: 0 <= k < |fds| ==> !fds[k].Conn?)
  }

  /** A child wired for its direction: the connection on 0 (copy) or 1 (paste),
      the null device on the other two standard descriptors, the right half shut. */
  ghost predicate WiredForDirection(d: Dispatch) {
    |d.fds| > STDERR &&
    d.fds[STDIN] == (if d.dir == Copy then Conn(d.conn) else Null) &&
    d.fds[STDOUT] == (if d.dir == Copy then Null else Conn(d.conn)) &&
    d.fds[STDERR] == Null &&
    d.shut == ShutFor(d.dir)
  }

  /** What a child of the drain of `dir` over the parent table `fds` is. */
  ghost predicate GoodChild(d: Dispatch, dir: Direction, fds: seq<File>, command: CStr) {
    d.dir == dir && WiredForDirection(d) &&
    d.path == "/bin/sh" && d.argv == ["sh", "-c", command] &&
    STDERR < d.fd < |fds| && fds[d.fd] == Closed &&
    |d.fds| == |fds| &&
    (forall k :: STDERR < k < |fds| ==> d.fds[k] == (if k == d.fd then Conn(d.conn) else fds[k]))
  }

  /** A drain that does not exit leaves the parent's table as it found it, and
      consumes one serial per dispatched child, numbered in order; every child
      is wired for the listener's direction and runs that direction's command
      with everything else inherited from the parent. */
  lemma {:induction false} DrainFacts(dir: Direction, script: seq<AcceptEvent>, fds: seq<File>, devnull: nat,
                                      command: CStr, serial: nat)
    requires ParentTable(fds, devnull)
    ensures var out := DrainSpec(dir, script, fds, devnull, command, serial);
            && (out.exit.Some? ==> out.exit.value == 2)
            && (out.exit.None? ==> out.fds == fds && out.nextConn == serial + |out.dispatched|)
            && (forall k :: 0 <= k < |out.dispatched| ==>
                  out.dispatched[k].conn == serial + k && GoodChild(out.dispatched[k], dir, fds, command))
  {
    if script != [] {
      match script[0]
      case AcceptFails(e) =>
        if e != EAGAIN && Transient(e) {
          DrainFacts(dir, script[1..], fds, devnull, command, serial);
        }
      case Incoming(forked) =>
        match FirstClosed(fds)
        case None =>
        case Some(fd) =>
          var open := fds[fd := Conn(serial)];
          assert open[fd := Closed] == fds;
          if forked {
            DrainFacts(dir, script[1..], fds, devnull, command, serial + 1);
            WiredStdio(open, fd, devnull, dir);
            var rest := DrainSpec(dir, script[1..], fds, devnull, command, serial + 1);
            var out := DrainSpec(dir, script, fds, devnull, command, serial);
            assert out.dispatched == [Child(open, fd, devnull, dir, command, serial)] + rest.dispatched;
          }
    }
  }

  /** A round in which `poll` succeeds, with both drains started from the same
      parent table: a drain that does not exit leaves the table as it was. */
  lemma StepReady(r: Round, fds: seq<File>, devnull: nat, copyCommand: CStr, pasteCommand: CStr, serial: nat)
    requires r.poll.PollReady? && ParentTable(fds, devnull)
    ensures var d0 := DrainSpec(Copy, r.copyAccepts, fds, devnull, copyCommand, serial);
            var d1 := DrainSpec(Paste, r.pasteAccepts, fds, devnull, pasteCommand, d0.nextConn);
            && (d0.exit.None? ==> d0.fds == fds)
            && StepSpec(r, fds, devnull, copyCommand, pasteCommand, serial)
               == if d0.exit.Some? then d0 else d1.(dispatched := d0.dispatched + d1.dispatched)
  {
    DrainFacts(Copy, r.copyAccepts, fds, devnull, copyCommand, serial);
  }

  /** One more event of the drain: what the drain ends with, or how it resumes
      after the event. A connection that does not exit leaves the table as it was. */
  lemma DrainAdvance(dir: Direction, script: seq<AcceptEvent>, j: nat, fds: seq<File>, devnull: nat, command: CStr,
                     serial: nat, emitted: seq<Dispatch>, full: Effect)
    requires j < |script|
    requires Resumes(full, emitted, DrainSpec(dir, script[j..], fds, devnull, command, serial))
    ensures script[j].AcceptFails? && script[j].errno == EAGAIN ==>
              Resumes(full, emitted, Effect([], None, serial, fds))
    ensures script[j].AcceptFails? && script[j].errno != EAGAIN && Transient(script[j].errno) ==>
              Resumes(full, emitted, DrainSpec(dir, script[j + 1..], fds, devnull, command, serial))
    ensures script[j].AcceptFails? && script[j].errno != EAGAIN && !Transient(script[j].errno) ==>
              Resumes(full, emitted, Effect([], Some(2), serial, fds))
    ensures script[j].Incoming? ==>
              var a := AcceptSpec(dir, script[j].forkSucceeds, fds, devnull, command, serial);
              && (a.exit.Some? ==> Resumes(full, emitted, a))
              && (a.exit.None? ==>
                    && a.fds == fds
                    && Resumes(full, emitted + a.dispatched, DrainSpec(dir, script[j + 1..], fds, devnull, command, a.nextConn)))
  {
    assert script[j..][0] == script[j] && script[j..][1..] == script[j + 1..];
    if script[j].Incoming? {
      match FirstClosed(fds)
      case None =>
      case Some(fd) => assert fds[fd := Conn(serial)][fd := Closed] == fds;
    }
  }

  /** A listener with nothing pending dispatches nothing and changes nothing. */
  lemma DrainIdle(dir: Direction, script: seq<AcceptEvent>, fds: seq<File>, devnull: nat, command: CStr, serial: nat)
    requires script == [] || script[0] == AcceptFails(EAGAIN)
    ensures DrainSpec(dir, script, fds, devnull, command, serial) == Effect([], None, serial, fds)
  {
  }

  /** A failed accept: a transient errno is skipped without a dispatch or an
      exit, any errno other than EAGAIN and the transient ones exits 2. */
  lemma DrainOnError(dir: Direction, script: seq<AcceptEvent>, fds: seq<File>, devnull: nat, command: CStr, serial: nat)
    requires script != [] && script[0].AcceptFails? && script[0].errno != EAGAIN
    ensures Transient(script[0].errno) ==>
              DrainSpec(dir, script, fds, devnull, command, serial)
              == DrainSpec(dir, script[1..], fds, devnull, command, serial)
    ensures !Transient(script[0].errno) ==>
              DrainSpec(dir, script, fds, devnull, command, serial) == Effect([], Some(2), serial, fds)
  {
  }

  /** What `StepSpec` and `RunSpec` preserve: exits are 2, the parent table is
      unchanged, serials are consecutive, and every child is correctly wired
      and runs its direction's command; within a round all copy children come
      before all paste children. */
  ghost predicate GoodEffect(e: Effect, fds: seq<File>, copyCommand: CStr, pasteCommand: CStr, serial: nat) {
    (e.exit.Some? ==> e.exit.value == 2) &&
    (e.exit.None? ==> e.fds == fds && e.nextConn == serial + |e.dispatched|) &&
    (forall k :: 0 <= k < |e.dispatched| ==>
       e.dispatched[k].conn == serial + k &&
       GoodChild(e.dispatched[k], e.dispatched[k].dir, fds,
                 if e.dispatched[k].dir == Copy then copyCommand else pasteCommand))
  }

  lemma StepFacts(r: Round, fds: seq<File>, devnull: nat, copyCommand: CStr, pasteCommand: CStr, serial: nat)
    requires ParentTable(fds, devnull)
    ensures GoodEffect(StepSpec(r, fds, devnull, copyCommand, pasteCommand, serial), fds, copyCommand, pasteCommand, serial)
    ensures r.poll.PollReady? ==>
              var d0 := DrainSpec(Copy, r.copyAccepts, fds, devnull, copyCommand, serial);
              var s := StepSpec(r, fds, devnull, copyCommand, pasteCommand, serial);
              d0.exit.None? ==>
                && s.dispatched[..|d0.dispatched|] == d0.dispatched
                && (forall k :: 0 <= k < |s.dispatched| ==> (s.dispatched[k].dir == Copy <==> k < |d0.dispatched|))
  {
    if r.poll.PollReady? {
      var d0 := DrainSpec(Copy, r.copyAccepts, fds, devnull, copyCommand, serial);
      DrainFacts(Copy, r.copyAccepts, fds, devnull, copyCommand, serial);
      if d0.exit.None? {
        DrainFacts(Paste, r.pasteAccepts, fds, devnull, pasteCommand, d0.nextConn);
        var d1 := DrainSpec(Paste, r.pasteAccepts, fds, devnull, pasteCommand, d0.nextConn);
        var s := StepSpec(r, fds, devnull, copyCommand, pasteCommand, serial);
        assert s.dispatched == d0.dispatched + d1.dispatched;
        forall k | 0 <= k < |s.dispatched|
          ensures s.dispatched[k].conn == serial + k
          ensures GoodChild(s.dispatched[k], s.dispatched[k].dir, fds,
                            if s.dispatched[k].dir == Copy then copyCommand else pasteCommand)
          ensures s.dispatched[k].dir == Copy <==> k < |d0.dispatched|
        {
          if k >= |d0.dispatched| {
            assert s.dispatched[k] == d1.dispatched[k - |d0.dispatched|];
          }
        }
      }
    }
  }

  /** Over any run of rounds: exits are 2, the parent's table is back as it was
      whenever the process is still polling, and every child ever dispatched is
      wired for its direction and runs its direction's command. */
  lemma {:induction false} RunFacts(rounds: seq<Round>, fds: seq<File>, devnull: nat, copyCommand: CStr,
                                    pasteCommand: CStr, serial: nat)
    requires ParentTable(fds, devnull)
    ensures GoodEffect(RunSpec(rounds, fds, devnull, copyCommand, pasteCommand, serial), fds, copyCommand, pasteCommand, serial)
  {
    if rounds != [] {
      var s := StepSpec(rounds[0], fds, devnull, copyCommand, pasteCommand, serial);
      StepFacts(rounds[0], fds, devnull, copyCommand, pasteCommand, serial);
      if s.exit.None? {
        RunFacts(rounds[1..], fds, devnull, copyCommand, pasteCommand, s.nextConn);
        var rest := RunSpec(rounds[1..], fds, devnull, copyCommand, pasteCommand, s.nextConn);
        var e := RunSpec(rounds, fds, devnull, copyCommand, pasteCommand, serial);
        assert e.dispatched == s.dispatched + rest.dispatched;
        forall k | 0 <= k < |e.dispatched|
          ensures e.dispatched[k].conn == serial + k
          ensures GoodChild(e.dispatched[k], e.dispatched[k].dir, fds,
                            if e.dispatched[k].dir == Copy then copyCommand else pasteCommand)
        {
          if k >= |s.dispatched| {
            assert e.dispatched[k] == rest.dispatched[k - |s.dispatched|];
          }
        }
      }
    }
  }

  lemma RunUnfold(rounds: seq<Round>, fds: seq<File>, devnull: nat, copyCommand: CStr, pasteCommand: CStr, serial: nat)
    requires rounds != []
    ensures var s := StepSpec(rounds[0], fds, devnull, copyCommand, pasteCommand, serial);
            var e := RunSpec(rounds, fds, devnull, copyCommand, pasteCommand, serial);
            && (s.exit.Some? ==> e == s)
            && (s.exit.None? ==>
                  var rest := RunSpec(rounds[1..], s.fds, devnull, copyCommand, pasteCommand, s.nextConn);
                  e == rest.(dispatched := s.dispatched + rest.dispatched))
  {
  }

  /** The run so far has dispatched `emitted`, and what remains of it is `rest`. */
  ghost predicate Resumes(full: Effect, emitted: seq<Dispatch>, rest: Effect) {
    full.exit == rest.exit && full.fds == rest.fds && full.nextConn == rest.nextConn &&
    full.dispatched == emitted + rest.dispatched
  }

  /** One more round of the outer loop: either it exits and the run ends with
      it, or the run resumes after it. */
  lemma RunAdvance(rounds: seq<Round>, k: nat, fds: seq<File>, devnull: nat, copyCommand: CStr, pasteCommand: CStr,
                   serial: nat, emitted: seq<Dispatch>, full: Effect)
    requires k < |rounds|
    requires Resumes(full, emitted, RunSpec(rounds[k..], fds, devnull, copyCommand, pasteCommand, serial))
    ensures var s := StepSpec(rounds[k], fds, devnull, copyCommand, pasteCommand, serial);
            && (s.exit.Some? ==> Resumes(full, emitted, s) && full.dispatched == emitted + s.dispatched)
            && (s.exit.None? ==>
                  Resumes(full, emitted + s.dispatched,
                          RunSpec(rounds[k + 1..], s.fds, devnull, copyCommand, pasteCommand, s.nextConn)))
  {
    RunUnfold(rounds[k..], fds, devnull, copyCommand, pasteCommand, serial);
    assert rounds[k..][1..] == rounds[k + 1..];
  }

  lemma Regroup<T>(a: seq<T>, b: seq<T>, c: seq<T>)
    ensures (a + b) + c == a + (b + c)
  {
  }

  /** The readiness test `!(revents | POLLIN)` never holds: whatever `poll`
      wrote, both listeners are drained. */
  lemma ReadinessTestNeverSkips(revents: bv16)
    ensures (revents | POLLIN) != 0
  {
  }

  class Server {
    const copyCommand: CStr
    const pasteCommand: CStr
    const devnull: nat
    var pollFds: array<PollFd>
    var fds: array<File>
    var dispatched: seq<Dispatch>
    var nextConn: nat

    function Command(dir: Direction): (command: CStr) {
      if dir == Copy then copyCommand else pasteCommand
    }

    /** The layout fixed at startup: entry i of `poll_fds` is the listener of
        direction i, polled for POLLIN, in a parent table as `ParentTable`. */
    ghost predicate Layout()
      reads this, pollFds, fds
    {
      pollFds.Length == 2 &&
      ParentTable(fds[..], devnull) &&
      forall i :: 0 <= i < 2 ==>
        pollFds[i].events == POLLIN &&
        0 <= pollFds[i].fd < fds.Length && fds[pollFds[i].fd] == Listener(DirectionOf(i))
    }

    /** Between rounds, both `revents` are 0 as well. */
    ghost predicate Valid()
      reads this, pollFds, fds
    {
      Layout() && pollFds[0].revents == 0 && pollFds[1].revents == 0
    }

    constructor (config: Startup.Config, initial: seq<File>, devnullFd: nat)
      requires ParentTable(initial, devnullFd)
      requires 0 <= config.copySocket < |initial| && initial[config.copySocket] == Listener(Copy)
      requires 0 <= config.pasteSocket < |initial| && initial[config.pasteSocket] == Listener(Paste)
      ensures Valid() && fresh(pollFds) && fresh(fds)
      ensures fds[..] == initial && dispatched == [] && nextConn == 0
      ensures copyCommand == config.copyCommand && pasteCommand == config.pasteCommand && devnull == devnullFd
      ensures pollFds[..] == [PollFd(config.copySocket, POLLIN, 0), PollFd(config.pasteSocket, POLLIN, 0)]
    {
      copyCommand := config.copyCommand;
      pasteCommand := config.pasteCommand;
      devnull := devnullFd;
      pollFds := new PollFd[2] [PollFd(config.copySocket, POLLIN, 0), PollFd(config.pasteSocket, POLLIN, 0)];
      fds := new File[|initial|] (k requires 0 <= k < |initial| => initial[k]);
      dispatched := [];
      nextConn := 0;
    }

    /** What follows a successful `accept4` on the listener of `dir`. */
    method AcceptOne(dir: Direction, forked: bool) returns (exit: Option<int>)
      modifies this`dispatched, this`nextConn, fds
      ensures var e := AcceptSpec(dir, forked, old(fds[..]), devnull, Command(dir), old(nextConn));
              && exit == e.exit && fds[..] == e.fds && nextConn == e.nextConn
              && dispatched == old(dispatched) + e.dispatched
    {
      var slot := LowestClosed(fds);
      if slot.None? {
        // no descriptor free: accept4 fails with EMFILE
        return Some(2);
      }
      var fd := slot.value;
      var serial := nextConn;
      fds[fd] := Conn(serial);
      nextConn := nextConn + 1;
      if !forked {
        return Some(2);
      }
      // fork: the child starts with a copy of the parent's table
      var parent := fds;
      var childFds := new File[parent.Length] (k reads parent requires 0 <= k < parent.Length => parent[k]);
      assert childFds[..] == fds[..];
      var shut := WireChild(childFds, fd, devnull, dir);
      dispatched := dispatched + [Dispatch(dir, fd, serial, childFds[..], shut, "/bin/sh", ["sh", "-c", Command(dir)])];
      fds[fd] := Closed;
      exit := None;
    }

    /** The `accept4` loop on listener i (rclip.c's inner `while (true)`). */
    method Drain(i: nat, script: seq<AcceptEvent>) returns (exit: Option<int>)
      requires Layout() && i < 2
      modifies this`dispatched, this`nextConn, fds
      ensures var out := DrainSpec(DirectionOf(i), script, old(fds[..]), devnull, Command(DirectionOf(i)), old(nextConn));
              && exit == out.exit && fds[..] == out.fds && nextConn == out.nextConn
              && dispatched == old(dispatched) + out.dispatched
      ensures exit.None? ==> Layout()
    {
      var dir := DirectionOf(i);
      ghost var table := fds[..];
      ghost var emitted: seq<Dispatch> := [];
      ghost var full := DrainSpec(dir, script, table, devnull, Command(dir), nextConn);
      assert script[0..] == script;
      var j := 0;
      while true
        invariant 0 <= j <= |script|
        invariant fds[..] == table
        invariant dispatched == old(dispatched) + emitted
        invariant Resumes(full, emitted, DrainSpec(dir, script[j..], table, devnull, Command(dir), nextConn))
        decreases |script| - j
      {
        if j == |script| {
          // the queue is empty: accept4 fails with EAGAIN
          break;
        }
        var event := script[j];
        DrainAdvance(dir, script, j, table, devnull, Command(dir), nextConn, emitted, full);
        j := j + 1;
        match event {
          case AcceptFails(e) =>
            if e == EAGAIN {
              break;
            }
            if Transient(e) {
              continue;
            }
            return Some(2);
          case Incoming(forked) =>
            ghost var accepted := AcceptSpec(dir, forked, table, devnull, Command(dir), nextConn);
            exit := AcceptOne(dir, forked);
            Regroup(old(dispatched), emitted, accepted.dispatched);
            if exit.Some? {
              return;
            }
            emitted := emitted + accepted.dispatched;
        }
      }
      exit := None;
    }

    /** One iteration of the outer `while (true)`, given what `poll` returned:
        EINTR polls again, another error exits 2; otherwise each listener i
        whose readiness test passes is drained, and both `revents` are reset. */
    method Step(r: Round) returns (exit: Option<int>)
      requires Valid()
      modifies this`dispatched, this`nextConn, fds, pollFds
      ensures var s := StepSpec(r, old(fds[..]), devnull, copyCommand, pasteCommand, old(nextConn));
              && exit == s.exit && fds[..] == s.fds && nextConn == s.nextConn
              && dispatched == old(dispatched) + s.dispatched
      ensures exit.None? ==> Valid() && pollFds[..] == old(pollFds[..])
    {
      match r.poll {
        case PollFails(e) =>
          if e == EINTR {
            return None;
          }
          return Some(2);
        case PollReady(copyRevents, pasteRevents) =>
          ghost var table := fds[..];
          ghost var d0 := DrainSpec(Copy, r.copyAccepts, table, devnull, copyCommand, nextConn);
          ghost var d1 := DrainSpec(Paste, r.pasteAccepts, table, devnull, pasteCommand, d0.nextConn);
          StepReady(r, table, devnull, copyCommand, pasteCommand, nextConn);
          pollFds[0] := pollFds[0].(revents := copyRevents);
          pollFds[1] := pollFds[1].(revents := pasteRevents);
          ghost var polled := pollFds[..];
          ghost var emitted: seq<Dispatch> := [];
          var i := 0;
          while i < 2
            invariant 0 <= i <= 2 && pollFds[..] == polled && Layout()
            invariant dispatched == old(dispatched) + emitted
            invariant i == 0 ==> emitted == [] && nextConn == old(nextConn) && fds[..] == table
            invariant i >= 1 ==> d0.exit.None?
            invariant i == 1 ==> emitted == d0.dispatched && nextConn == d0.nextConn && fds[..] == table
            invariant i == 2 ==> emitted == d0.dispatched + d1.dispatched && nextConn == d1.nextConn
                                 && fds[..] == d1.fds && d1.exit.None?
          {
            if (pollFds[i].revents | POLLIN) == 0 {
              // never taken: see ReadinessTestNeverSkips
              i := i + 1;
              continue;
            }
            ghost var drained := if i == 0 then d0 else d1;
            exit := Drain(i, Accepts(r, i));
            Regroup(old(dispatched), emitted, drained.dispatched);
            if exit.Some? {
              return;
            }
            emitted := emitted + drained.dispatched;
            i := i + 1;
          }
          pollFds[0] := pollFds[0].(revents := 0);
          pollFds[1] := pollFds[1].(revents := 0);
          assert pollFds[..] == old(pollFds[..]);
          exit := None;
      }
    }

    /** The outer `while (true)` over a finite run of poll returns: it stops
        only on an exit; when the returns are used up it is still polling. */
    method Run(rounds: seq<Round>) returns (status: Status)
      requires Valid()
      modifies this`dispatched, this`nextConn, fds, pollFds
      ensures var e := RunSpec(rounds, old(fds[..]), devnull, copyCommand, pasteCommand, old(nextConn));
              && status == (if e.exit.Some? then Exited(e.exit.value) else Polling)
              && fds[..] == e.fds && nextConn == e.nextConn && dispatched == old(dispatched) + e.dispatched
      ensures status == Polling ==> Valid() && pollFds[..] == old(pollFds[..])
    {
      ghost var emitted: seq<Dispatch> := [];
      ghost var full := RunSpec(rounds, fds[..], devnull, copyCommand, pasteCommand, nextConn);
      assert rounds[0..] == rounds;
      var k := 0;
      while k < |rounds|
        invariant 0 <= k <= |rounds| && Valid() && pollFds[..] == old(pollFds[..])
        invariant dispatched == old(dispatched) + emitted
        invariant Resumes(full, emitted, RunSpec(rounds[k..], fds[..], devnull, copyCommand, pasteCommand, nextConn))
      {
        ghost var table, conn := fds[..], nextConn;
        ghost var s := StepSpec(rounds[k], table, devnull, copyCommand, pasteCommand, conn);
        RunAdvance(rounds, k, table, devnull, copyCommand, pasteCommand, conn, emitted, full);
        var exit := Step(rounds[k]);
        Regroup(old(dispatched), emitted, s.dispatched);
        if exit.Some? {
          return Exited(exit.value);
        }
        emitted := emitted + s.dispatched;
        k := k + 1;
      }
      status := Polling;
    }
  }
}
