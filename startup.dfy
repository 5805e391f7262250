/** Startup of `main`: default commands from the environment, the getopt_long
    loop over `-h`, `-c`, `-p`, `-a`, the two port operands, and the creation of
    the two listening sockets, ending either in an exit code or in a
    configuration to serve. */
module Startup {
  import opened Sys
  import opened PortParse

  /** One result of getopt_long before it returns -1. A missing option argument
      and an unknown option both come back as '?'. */
  datatype Opt = Help | CopyCmd(arg: CStr) | PasteCmd(arg: CStr) | Address(arg: CStr) | Unknown

  /** argc, what getopt_long returned in order, and argv[optind..argc-1]. */
  datatype Invocation = Invocation(argc: nat, options: seq<Opt>, operands: seq<CStr>)

  /** getenv("WAYLAND_DISPLAY") and getenv("DISPLAY"); None is a NULL result. */
  datatype Environment = Environment(waylandDisplay: Option<CStr>, display: Option<CStr>)

  /** An IPv4 address in network byte order; INADDR_ANY is all zero bits in either order. */
  type InAddr = bv32
  const INADDR_ANY: InAddr := 0

  /** Copy and paste commands; None is a NULL pointer. */
  datatype Commands = Commands(copy: Option<CStr>, paste: Option<CStr>)

  /** What the server runs with once startup succeeds. */
  datatype Config = Config(copyCommand: CStr, pasteCommand: CStr, bindAddr: InAddr,
                           copyPort: int, pastePort: int, copySocket: int, pasteSocket: int)

  datatype Outcome = Exit(code: int) | Serve(config: Config)

  /** One call of `make_sock`: which endpoint, on which address and port. */
  datatype SockCall = SockCall(dir: Direction, addr: InAddr, port: int)

  predicate NonEmpty(v: Option<CStr>) {
    v.Some? && v.value != []
  }

  /** The default commands: Wayland's when WAYLAND_DISPLAY is set and non-empty,
      otherwise xclip's when DISPLAY is, otherwise none. */
  function Defaults(env: Environment): (d: Commands)
    ensures NonEmpty(env.waylandDisplay) ==> d == Commands(Some("wl-copy"), Some("wl-paste"))
    ensures !NonEmpty(env.waylandDisplay) && NonEmpty(env.display) ==>
      d == Commands(Some("xclip -selection clipboard"), Some("xclip -out -selection clipboard"))
    ensures d.copy.Some? <==> NonEmpty(env.waylandDisplay) || NonEmpty(env.display)
    ensures d.copy.Some? <==> d.paste.Some?
  {
    if NonEmpty(env.waylandDisplay) then Commands(Some("wl-copy"), Some("wl-paste"))
    else if NonEmpty(env.display) then
      Commands(Some("xclip -selection clipboard"), Some("xclip -out -selection clipboard"))
    else Commands(None, None)
  }

  /** The state of the getopt loop: stopped with an exit code, or finished. */
  datatype Scan = Stopped(code: int) | Scanned(commands: Commands, addr: InAddr)

  /** The getopt loop from the front: `-h` stops with 0, an unknown option or
      an address inet_aton rejects stops with 1, `-c`/`-p`/`-a` replace. */
  function ScanOptions(opts: seq<Opt>, cmds: Commands, addr: InAddr, aton: CStr -> Option<InAddr>): (r: Scan)
    decreases |opts|
  {
    if opts == [] then Scanned(cmds, addr)
    else match opts[0]
      case Help => Stopped(0)
      case Unknown => Stopped(1)
      case CopyCmd(a) => ScanOptions(opts[1..], cmds.(copy := Some(a)), addr, aton)
      case PasteCmd(a) => ScanOptions(opts[1..], cmds.(paste := Some(a)), addr, aton)
      case Address(a) =>
        if aton(a).None? then Stopped(1) else ScanOptions(opts[1..], cmds, aton(a).value, aton)
  }

  /** The whole of startup: the outcome and the `make_sock` calls made, in order. */
  function Resolve(inv: Invocation, env: Environment, errno: int,
                   aton: CStr -> Option<InAddr>, makeSock: SockCall -> int): (r: (Outcome, seq<SockCall>))
  {
    if inv.argc == 1 then (Exit(0), [])
    else match ScanOptions(inv.options, Defaults(env), INADDR_ANY, aton)
      case Stopped(code) => (Exit(code), [])
      case Scanned(cmds, addr) => Finish(inv.operands, cmds, addr, errno, makeSock)
  }

  /** Startup after the getopt loop: operands and commands present, both ports
      valid, both sockets made. */
  function Finish(operands: seq<CStr>, cmds: Commands, addr: InAddr, errno: int,
                  makeSock: SockCall -> int): (r: (Outcome, seq<SockCall>))
  {
    if |operands| < 2 || cmds.copy.None? || cmds.paste.None? then (Exit(1), [])
    else
      var copyPort := ParsePort(operands[0], errno);
      if copyPort < 0 then (Exit(1), [])
      else
        var pastePort := ParsePort(operands[1], ErrnoAfterParse(operands[0], errno));
        if pastePort < 0 then (Exit(1), [])
        else
          var c := SockCall(Copy, addr, copyPort);
          var p := SockCall(Paste, addr, pastePort);
          if makeSock(c) < 1 then (Exit(2), [c])
          else if makeSock(p) < 1 then (Exit(2), [c, p])
          else (Serve(Config(cmds.copy.value, cmds.paste.value, addr, copyPort, pastePort,
                             makeSock(c), makeSock(p))), [c, p])
  }

  /** `main` up to the creation of the sockets, as the source does it: the
      commands and the bind address are variables the getopt loop reassigns.
      inet_aton and make_sock are parameters; errno is its value on entry to
      the first `parse_port`. */
  method ResolveConfig(inv: Invocation, env: Environment, errno: int,
                       aton: CStr -> Option<InAddr>, makeSock: SockCall -> int)
    returns (outcome: Outcome, calls: seq<SockCall>)
    ensures (outcome, calls) == Resolve(inv, env, errno, aton, makeSock)
  {
    if inv.argc == 1 {
      return Exit(0), [];
    }
    var defaults := Defaults(env);
    var copyCommand := defaults.copy;
    var pasteCommand := defaults.paste;
    var bindAddr := INADDR_ANY;
    var i := 0;
    while i < |inv.options|
      invariant 0 <= i <= |inv.options|
      invariant ScanOptions(inv.options, defaults, INADDR_ANY, aton)
             == ScanOptions(inv.options[i..], Commands(copyCommand, pasteCommand), bindAddr, aton)
    {
      match inv.options[i] {
        case Help =>
          return Exit(0), [];
        case Unknown =>
          return Exit(1), [];
        case CopyCmd(a) =>
          copyCommand := Some(a);
        case PasteCmd(a) =>
          pasteCommand := Some(a);
        case Address(a) =>
          var parsed := aton(a);
          if parsed.None? {
            return Exit(1), [];
          }
          bindAddr := parsed.value;
      }
      i := i + 1;
    }
    assert inv.options[i..] == [];
    outcome, calls := OpenEndpoints(inv.operands, Commands(copyCommand, pasteCommand), bindAddr, errno, makeSock);
  }

  /** The rest of `main` up to the `poll` loop: operand and command checks, the
      two `parse_port` calls (errno carries over from the first to the second),
      and the two `make_sock` calls, where a result below 1 is a failure. */
  method OpenEndpoints(operands: seq<CStr>, cmds: Commands, addr: InAddr, errno: int, makeSock: SockCall -> int)
    returns (outcome: Outcome, calls: seq<SockCall>)
    ensures (outcome, calls) == Finish(operands, cmds, addr, errno, makeSock)
    ensures |operands| < 2 || cmds.copy.None? || cmds.paste.None? ==> outcome == Exit(1) && calls == []
    ensures (|operands| >= 2 && cmds.copy.Some? && cmds.paste.Some? &&
             (ParsePort(operands[0], errno) < 0 || ParsePort(operands[1], ErrnoAfterParse(operands[0], errno)) < 0))
              ==> outcome == Exit(1) && calls == []
    ensures outcome == Exit(1) <==> calls == []
    ensures calls != [] ==> |operands| >= 2 && calls[0] == SockCall(Copy, addr, ParsePort(operands[0], errno))
    ensures calls != [] && makeSock(calls[0]) < 1 ==> outcome == Exit(2) && |calls| == 1
    ensures calls != [] && makeSock(calls[0]) >= 1 ==>
              |calls| == 2 && calls[1] == SockCall(Paste, addr, ParsePort(operands[1], ErrnoAfterParse(operands[0], errno)))
    ensures |calls| == 2 && makeSock(calls[1]) < 1 ==> outcome == Exit(2)
    ensures outcome.Serve? ==>
              && |calls| == 2 && cmds.copy.Some? && cmds.paste.Some?
              && outcome.config == Config(cmds.copy.value, cmds.paste.value, addr, calls[0].port, calls[1].port,
                                          makeSock(calls[0]), makeSock(calls[1]))
  {
    if |operands| < 2 || cmds.copy.None? || cmds.paste.None? {
      return Exit(1), [];
    }
    var copyPort := ParsePort(operands[0], errno);
    if copyPort < 0 {
      return Exit(1), [];
    }
    var pastePort := ParsePort(operands[1], ErrnoAfterParse(operands[0], errno));
    if pastePort < 0 {
      return Exit(1), [];
    }
    var copyCall := SockCall(Copy, addr, copyPort);
    var copySocket := makeSock(copyCall);
    calls := [copyCall];
    if copySocket < 1 {
      return Exit(2), calls;
    }
    var pasteCall := SockCall(Paste, addr, pastePort);
    var pasteSocket := makeSock(pasteCall);
    calls := calls + [pasteCall];
    assert calls == [copyCall, pasteCall];
    if pasteSocket < 1 {
      return Exit(2), calls;
    }
    outcome := Serve(Config(cmds.copy.value, cmds.paste.value, addr, copyPort, pastePort, copySocket, pasteSocket));
  }

  /** The copy command last given with `-c`, or d when there is none. */
  function LastCopy(opts: seq<Opt>, d: Option<CStr>): (c: Option<CStr>)
  {
    if opts == [] then d
    else if opts[|opts| - 1].CopyCmd? then Some(opts[|opts| - 1].arg)
    else LastCopy(opts[..|opts| - 1], d)
  }

  /** The paste command last given with `-p`, or d when there is none. */
  function LastPaste(opts: seq<Opt>, d: Option<CStr>): (c: Option<CStr>)
  {
    if opts == [] then d
    else if opts[|opts| - 1].PasteCmd? then Some(opts[|opts| - 1].arg)
    else LastPaste(opts[..|opts| - 1], d)
  }

  /** The bind address last given with `-a`, or d when there is none. */
  function LastAddress(opts: seq<Opt>, aton: CStr -> Option<InAddr>, d: InAddr): (a: InAddr)
  {
    if opts == [] then d
    else if opts[|opts| - 1].Address? && aton(opts[|opts| - 1].arg).Some? then aton(opts[|opts| - 1].arg).value
    else LastAddress(opts[..|opts| - 1], aton, d)
  }

  /** A stop: help, an unknown option, or an address inet_aton rejects. */
  predicate Stops(o: Opt, aton: CStr -> Option<InAddr>) {
    o.Help? || o.Unknown? || (o.Address? && aton(o.arg).None?)
  }

  lemma {:induction false} LastOfSnoc(opts: seq<Opt>, o: Opt, c: Option<CStr>, p: Option<CStr>,
                                      aton: CStr -> Option<InAddr>, a: InAddr)
    requires !Stops(o, aton)
    ensures LastCopy(opts + [o], c) == LastCopy([o], LastCopy(opts, c))
    ensures LastPaste(opts + [o], p) == LastPaste([o], LastPaste(opts, p))
    ensures LastAddress(opts + [o], aton, a) == LastAddress([o], aton, LastAddress(opts, aton, a))
  {
    assert (opts + [o])[..|opts|] == opts;
  }

  /** When no option stops the loop, it ends with the last `-c`, the last `-p`
      and the last accepted `-a`, each falling back to what it started with. */
  lemma {:induction false} ScanLastWins(opts: seq<Opt>, cmds: Commands, addr: InAddr, aton: CStr -> Option<InAddr>)
    requires forall i :: 0 <= i < |opts| ==> !Stops(opts[i], aton)
    ensures ScanOptions(opts, cmds, addr, aton)
         == Scanned(Commands(LastCopy(opts, cmds.copy), LastPaste(opts, cmds.paste)),
                    LastAddress(opts, aton, addr))
  {
    if opts != [] {
      var n := |opts| - 1;
      var init := opts[..n];
      ScanLastWins(init, cmds, addr, aton);
      ScanSplit(init, opts[n], cmds, addr, aton);
      LastOfSnoc(init, opts[n], cmds.copy, cmds.paste, aton, addr);
      assert opts == init + [opts[n]];
    }
  }

  /** Running the loop over opts + [o] is running it over opts, then over [o]. */
  lemma {:induction false} ScanSplit(opts: seq<Opt>, o: Opt, cmds: Commands, addr: InAddr, aton: CStr -> Option<InAddr>)
    requires forall i :: 0 <= i < |opts| ==> !Stops(opts[i], aton)
    ensures ScanOptions(opts, cmds, addr, aton).Scanned?
    ensures ScanOptions(opts + [o], cmds, addr, aton)
         == ScanOptions([o], ScanOptions(opts, cmds, addr, aton).commands, ScanOptions(opts, cmds, addr, aton).addr, aton)
  {
    if opts != [] {
      assert (opts + [o])[1..] == opts[1..] + [o];
      match opts[0]
      case CopyCmd(a) => ScanSplit(opts[1..], o, cmds.(copy := Some(a)), addr, aton);
      case PasteCmd(a) => ScanSplit(opts[1..], o, cmds.(paste := Some(a)), addr, aton);
      case Address(a) => ScanSplit(opts[1..], o, cmds, aton(a).value, aton);
    }
  }

  /** The first stopping option decides the exit code: 0 for `-h`, 1 otherwise;
      options after it are never looked at, and no socket is created. */
  lemma {:induction false} FirstStopDecides(opts: seq<Opt>, k: nat, cmds: Commands, addr: InAddr, aton: CStr -> Option<InAddr>)
    requires k < |opts| && Stops(opts[k], aton)
    requires forall i :: 0 <= i < k ==> !Stops(opts[i], aton)
    ensures ScanOptions(opts, cmds, addr, aton) == Stopped(if opts[k].Help? then 0 else 1)
  {
    if k > 0 {
      match opts[0]
      case CopyCmd(a) => FirstStopDecides(opts[1..], k - 1, cmds.(copy := Some(a)), addr, aton);
      case PasteCmd(a) => FirstStopDecides(opts[1..], k - 1, cmds.(paste := Some(a)), addr, aton);
      case Address(a) => FirstStopDecides(opts[1..], k - 1, cmds, aton(a).value, aton);
    }
  }

  /** Help (or no argument at all) exits 0 before anything else happens. */
  lemma HelpExitsZero(inv: Invocation, env: Environment, errno: int,
                      aton: CStr -> Option<InAddr>, makeSock: SockCall -> int, k: nat)
    requires inv.argc == 1 || (k < |inv.options| && inv.options[k].Help? &&
                               forall i :: 0 <= i < k ==> !Stops(inv.options[i], aton))
    ensures Resolve(inv, env, errno, aton, makeSock) == (Exit(0), [])
  {
    if inv.argc != 1 {
      FirstStopDecides(inv.options, k, Defaults(env), INADDR_ANY, aton);
    }
  }

  /** The outcome of a run in which no option stops the loop: the environment's
      default commands are replaced by the last `-c` and `-p`; a command still
      missing or a missing operand exits 1, a bad port exits 1, all before any
      socket is made; a failed socket exits 2; otherwise the server runs with
      both ports in 1..65535 and both sockets at least 1. */
  lemma {:induction false} ResolveCompleted(inv: Invocation, env: Environment, errno: int,
                                             aton: CStr -> Option<InAddr>, makeSock: SockCall -> int)
    requires inv.argc != 1
    requires forall i :: 0 <= i < |inv.options| ==> !Stops(inv.options[i], aton)
    ensures var (outcome, calls) := Resolve(inv, env, errno, aton, makeSock);
            var copy := LastCopy(inv.options, Defaults(env).copy);
            var paste := LastPaste(inv.options, Defaults(env).paste);
            var addr := LastAddress(inv.options, aton, INADDR_ANY);
            && (|inv.operands| < 2 || copy.None? || paste.None? ==> outcome == Exit(1) && calls == [])
            && (|inv.operands| >= 2 && copy.Some? && paste.Some? ==>
                  && (ParsePort(inv.operands[0], errno) == -1 ==> outcome == Exit(1) && calls == [])
                  && ((ParsePort(inv.operands[0], errno) != -1 && ParsePort(inv.operands[1], 0) == -1)
                        ==> outcome == Exit(1) && calls == [])
                  && (ParsePort(inv.operands[0], errno) != -1 && ParsePort(inv.operands[1], 0) != -1 ==>
                        && |calls| > 0 && calls[0] == SockCall(Copy, addr, ParsePort(inv.operands[0], errno))
                        && (outcome.Exit? ==> outcome.code == 2 && makeSock(calls[|calls| - 1]) < 1)
                        && (makeSock(calls[0]) < 1 ==> outcome == Exit(2) && |calls| == 1)
                        && (makeSock(calls[0]) >= 1 ==>
                              |calls| == 2 && calls[1] == SockCall(Paste, addr, ParsePort(inv.operands[1], 0)))
                        && (|calls| == 2 && makeSock(calls[1]) < 1 ==> outcome == Exit(2))
                        && (outcome.Serve? ==>
                              && outcome.config.copyCommand == copy.value
                              && outcome.config.pasteCommand == paste.value
                              && outcome.config.bindAddr == addr
                              && outcome.config.copyPort == ParsePort(inv.operands[0], errno)
                              && outcome.config.pastePort == ParsePort(inv.operands[1], 0)
                              && calls == [SockCall(Copy, addr, outcome.config.copyPort),
                                           SockCall(Paste, addr, outcome.config.pastePort)]
                              && outcome.config.copySocket == makeSock(calls[0]) >= 1
                              && outcome.config.pasteSocket == makeSock(calls[1]) >= 1)))
  {
    ScanLastWins(inv.options, Defaults(env), INADDR_ANY, aton);
  }

  /** Every run ends in exit 0, 1 or 2 or in a configuration with two valid
      ports and two sockets; only exit 2 and serving have called `make_sock`. */
  lemma ResolveOutcomes(inv: Invocation, env: Environment, errno: int,
                        aton: CStr -> Option<InAddr>, makeSock: SockCall -> int)
    ensures var (outcome, calls) := Resolve(inv, env, errno, aton, makeSock);
            && (outcome.Exit? ==> outcome.code in {0, 1, 2})
            && (outcome.Exit? && outcome.code != 2 ==> calls == [])
            && (outcome == Exit(2) ==> 1 <= |calls| <= 2 && makeSock(calls[|calls| - 1]) < 1)
            && (calls != [] && makeSock(calls[0]) < 1 ==> outcome == Exit(2) && |calls| == 1)
            && (|calls| == 2 ==> makeSock(calls[0]) >= 1)
            && (|calls| == 2 && makeSock(calls[1]) < 1 ==> outcome == Exit(2))
            && (outcome.Serve? ==>
                  && 1 <= outcome.config.copyPort <= 65535 && 1 <= outcome.config.pastePort <= 65535
                  && |calls| == 2 && calls[0].dir == Copy && calls[1].dir == Paste
                  && outcome.config.copySocket == makeSock(calls[0]) >= 1
                  && outcome.config.pasteSocket == makeSock(calls[1]) >= 1)
  {
    if inv.argc != 1 {
      match ScanOptions(inv.options, Defaults(env), INADDR_ANY, aton)
      case Stopped(code) => ScanStopCode(inv.options, Defaults(env), INADDR_ANY, aton);
      case Scanned(_, _) =>
    }
  }

  lemma {:induction false} ScanStopCode(opts: seq<Opt>, cmds: Commands, addr: InAddr, aton: CStr -> Option<InAddr>)
    ensures ScanOptions(opts, cmds, addr, aton).Stopped? ==> ScanOptions(opts, cmds, addr, aton).code in {0, 1}
  {
    if opts != [] {
      match opts[0]
      case CopyCmd(a) => ScanStopCode(opts[1..], cmds.(copy := Some(a)), addr, aton);
      case PasteCmd(a) => ScanStopCode(opts[1..], cmds.(paste := Some(a)), addr, aton);
      case Address(a) => if aton(a).Some? { ScanStopCode(opts[1..], cmds, aton(a).value, aton); }
      case Help =>
      case Unknown =>
    }
  }
}
