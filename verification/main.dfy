/**
 * Start-up of the server, `main` in src/app/Main.cpp: the command line chooses the
 * configuration file, and the configured port is range-checked before the network is
 * started.
 */
module App {
  import opened Wrappers

  type int32 = x: int | -0x8000_0000 <= x < 0x8000_0000

  const DEFAULT_CONFIG_NAME: string := "WarheadFix.conf"
  const DEFAULT_PORT: int32 := 5001
  const DEFAULT_BIND_IP: string := "0.0.0.0"

  /** The configuration file the command line selects, or a `-c` with nothing after it. */
  datatype CliResult = ConfigPath(path: string) | MissingArgument

  /**
   * The arguments after the program name, read left to right from the current choice:
   * `-c` takes the next argument, whatever it is, as the path; every other argument is
   * skipped.
   */
  function SelectConfig(args: seq<string>, current: string): CliResult
    decreases |args|
  {
    if args == [] then ConfigPath(current)
    else if args[0] == "-c" then
      if |args| == 1 then MissingArgument else SelectConfig(args[2..], args[1])
    else SelectConfig(args[1..], current)
  }

  /** The arguments after the program name (none when `argv` is empty). */
  function Arguments(argv: seq<string>): seq<string> {
    if |argv| == 0 then [] else argv[1..]
  }

  /**
   * The `while (count < argc)` loop of `main`: `configFile` starts as the configuration
   * directory followed by `WarheadFix.conf`.
   */
  method ParseArguments(argv: seq<string>, configDir: string) returns (r: CliResult)
    ensures r == SelectConfig(Arguments(argv), configDir + DEFAULT_CONFIG_NAME)
  {
    var configFile := configDir + DEFAULT_CONFIG_NAME;
    if |argv| == 0 {
      return ConfigPath(configFile);
    }
    var count := 1;
    while count < |argv|
      invariant 1 <= count <= |argv|
      invariant SelectConfig(argv[count..], configFile) == SelectConfig(Arguments(argv), configDir + DEFAULT_CONFIG_NAME)
      decreases |argv| - count
    {
      if argv[count] == "-c" {
        count := count + 1;
        if count >= |argv| {
          return MissingArgument;
        } else {
          assert argv[count - 1..][2..] == argv[count + 1..];
          configFile := argv[count];
        }
      } else {
        assert argv[count..][1..] == argv[count + 1..];
      }
      count := count + 1;
    }
    return ConfigPath(configFile);
  }

  /** Without `-c` the default configuration file is used. */
  lemma {:induction false} NoFlagKeepsDefault(args: seq<string>, current: string)
    requires forall i :: 0 <= i < |args| ==> args[i] != "-c"
    ensures SelectConfig(args, current) == ConfigPath(current)
    decreases |args|
  {
    if args != [] {
      NoFlagKeepsDefault(args[1..], current);
    }
  }

  /** Reading a command line in two parts: the second part starts from what the first chose. */
  lemma {:induction false} SelectConfigAppend(xs: seq<string>, ys: seq<string>, current: string)
    requires SelectConfig(xs, current).ConfigPath?
    ensures SelectConfig(xs + ys, current) == SelectConfig(ys, SelectConfig(xs, current).path)
    decreases |xs|
  {
    if xs == [] {
      assert xs + ys == ys;
    } else if xs[0] == "-c" {
      assert (xs + ys)[2..] == xs[2..] + ys;
      SelectConfigAppend(xs[2..], ys, xs[1]);
    } else {
      assert (xs + ys)[1..] == xs[1..] + ys;
      SelectConfigAppend(xs[1..], ys, current);
    }
  }

  /** The last `-c` wins: what comes after it, without another `-c`, does not change the path. */
  lemma LastFlagWins(xs: seq<string>, path: string, ys: seq<string>, current: string)
    requires SelectConfig(xs, current).ConfigPath?
    requires forall i :: 0 <= i < |ys| ==> ys[i] != "-c"
    ensures SelectConfig(xs + ["-c", path] + ys, current) == ConfigPath(path)
  {
    SelectConfigAppend(xs, ["-c", path] + ys, current);
    assert xs + ["-c", path] + ys == xs + (["-c", path] + ys);
    assert (["-c", path] + ys)[2..] == ys;
    NoFlagKeepsDefault(ys, path);
  }

  /** A `-c` at the end of the command line has no argument: `main` returns 1. */
  lemma TrailingFlagFails(xs: seq<string>, current: string)
    requires SelectConfig(xs, current).ConfigPath?
    ensures SelectConfig(xs + ["-c"], current) == MissingArgument
  {
    SelectConfigAppend(xs, ["-c"], current);
  }

  /**
   * The argument after `-c` is taken as it is, even when it is `-c` itself: `-c -c`
   * selects the file `-c`, and a third `-c` is left without an argument.
   */
  lemma FlagArgumentIsVerbatim(current: string)
    ensures SelectConfig(["-c", "-c"], current) == ConfigPath("-c")
    ensures SelectConfig(["-c", "-c", "-c"], current) == MissingArgument
  {
    LastFlagWins([], "-c", [], current);
    assert [] + ["-c", "-c"] + [] == ["-c", "-c"];
    TrailingFlagFails(["-c", "-c"], current);
    assert ["-c", "-c"] + ["-c"] == ["-c", "-c", "-c"];
  }

  /** The range check on `ServerPort`: 0 to 65535, so port 0 passes despite the "1-65535" message. */
  function PortInRange(port: int32): (ok: bool)
    ensures ok <==> 0 <= port <= 0xFFFF
  {
    !(port < 0 || port > 0xFFFF)
  }

  /** How `main` ends: with an exit code, or killed by an `ABORT` while logging starts. */
  datatype Outcome = Exited(code: int) | Aborted

  /**
   * `main`, with the outside world as parameters: whether a configuration file loads,
   * whether `sLog->Initialize` aborts on the loaded configuration (the `aborted` result
   * of `Logging.Log.LoadFromConfig`), the `ServerPort` and `BindIP` options if they are
   * set, and whether the network starts on an address and port.  It returns 0 only when
   * every step succeeds, and 1 at the first that fails; an abort while logging starts
   * ends the process before the port is checked.
   */
  method Run(argv: seq<string>, configDir: string, loadAppConfigs: string -> bool, logAborts: bool,
             serverPort: Option<int32>, bindIp: Option<string>, startNetwork: (string, int32) -> bool)
    returns (outcome: Outcome)
    ensures outcome.Exited? ==> outcome.code == 0 || outcome.code == 1
    ensures outcome.Aborted? <==>
      && SelectConfig(Arguments(argv), configDir + DEFAULT_CONFIG_NAME).ConfigPath?
      && loadAppConfigs(SelectConfig(Arguments(argv), configDir + DEFAULT_CONFIG_NAME).path)
      && logAborts
    ensures outcome == Exited(0) <==>
      && SelectConfig(Arguments(argv), configDir + DEFAULT_CONFIG_NAME).ConfigPath?
      && loadAppConfigs(SelectConfig(Arguments(argv), configDir + DEFAULT_CONFIG_NAME).path)
      && !logAborts
      && PortInRange(serverPort.GetOr(DEFAULT_PORT))
      && startNetwork(bindIp.GetOr(DEFAULT_BIND_IP), serverPort.GetOr(DEFAULT_PORT))
  {
    var cli := ParseArguments(argv, configDir);
    if cli.MissingArgument? {
      return Exited(1);
    }
    if !loadAppConfigs(cli.path) {
      return Exited(1);
    }
    if logAborts {
      return Aborted;
    }
    var port := serverPort.GetOr(DEFAULT_PORT);
    if port < 0 || port > 0xFFFF {
      return Exited(1);
    }
    var address := bindIp.GetOr(DEFAULT_BIND_IP);
    if !startNetwork(address, port) {
      return Exited(1);
    }
    return Exited(0);
  }
}
