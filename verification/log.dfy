/**
 * Logger configuration and lookup of `Log` (src/common/Logging/Log.cpp).
 *
 * The configuration store is a map from option names to their string values, and
 * the spdlog logger registry a map from logger names to loggers.  Loggers are named
 * hierarchically with `.`: a type with no logger of its own is served by the logger
 * of its nearest registered ancestor, and finally by `root`.  Sinks are built from
 * `Sink.*` options, kept in a map by name, and handed out to the loggers that name
 * them; loggers are built from `Logger.*` options.
 */
module Logging {
  import opened Wrappers
  import opened StringUtil

  // ---------------------------------------------------------------------------
  // Constants

  const LOGGER_ROOT: string := "root"
  const PREFIX_LOGGER: string := "Logger."
  const PREFIX_SINK: string := "Sink."
  const PREFIX_LOGGER_LENGTH: nat := 7
  const PREFIX_SINK_LENGTH: nat := 5

  /** `LogLevel`, in spdlog's order: trace, debug, info, warning, error, critical. */
  type LogLevel = nat
  const LOG_LEVEL_TRACE: LogLevel := 0
  const LOG_LEVEL_ERROR: LogLevel := 4
  const LOG_LEVEL_CRITICAL: LogLevel := 5
  const LOG_LEVEL_DISABLED: LogLevel := 6
  const LOG_LEVEL_MAX: LogLevel := 7

  /** `LoggerOptions`: the positions of a `Logger.*` option's fields. */
  const LOGGER_OPTION_LEVEL: nat := 0
  const LOGGER_OPTION_SINK_NAME: nat := 1
  const LOGGER_OPTION_MAX: nat := 2

  /** `SinkOptions`: the positions of a `Sink.*` option's fields. */
  const SINK_OPTION_TYPE: nat := 0
  const SINK_OPTION_LEVEL: nat := 1
  const SINK_OPTION_PATTERN: nat := 2
  const SINK_OPTION_1: nat := 3
  const SINK_OPTION_2: nat := 4
  const SINK_OPTION_3: nat := 5
  const SINK_OPTION_4: nat := 6
  const SINK_OPTION_MAX: nat := 7

  /** `SinkType`. */
  const SINK_TYPE_CONSOLE: nat := 1
  const SINK_TYPE_FILE: nat := 2
  const SINK_TYPE_MAX: nat := 3

  const UINT64_LIMIT: nat := 0x1_0000_0000_0000_0000

  // ---------------------------------------------------------------------------
  // Entities

  datatype ConsoleColor =
    | Black | Red | Green | Brown | Blue | Magenta | Cyan | Gray
    | DarkGray | LightRed | LightGreen | Yellow | LightBlue | LightMagenta | LightCyan | White

  /**
   * A sink as it is configured.  A console sink carries the six colours, trace to
   * critical, when its colour option sets them; a file sink carries the rotating file
   * sink's parameters.
   */
  datatype Sink =
    | ConsoleSink(level: LogLevel, pattern: string, colors: Option<seq<ConsoleColor>>)
    | FileSink(level: LogLevel, pattern: string, fileName: string, maxFileSize: nat, maxFiles: nat, rotateOnOpen: bool)

  datatype Logger = Logger(name: string, level: LogLevel, sinks: seq<Sink>)

  /** The spdlog registry: loggers by name. */
  type Registry = map<string, Logger>

  /** The configuration store: option values by name. */
  type Config = map<string, string>

  /** `sConfigMgr->GetOption<std::string>(name, def)`. */
  function GetOption(cfg: Config, name: string, def: string): (v: string)
    ensures name in cfg ==> v == cfg[name]
    ensures name !in cfg ==> v == def
  {
    if name in cfg then cfg[name] else def
  }

  // ---------------------------------------------------------------------------
  // Logger resolution

  /** `find_last_of('.')`. */
  function LastDot(t: string): (r: Option<nat>)
    ensures r.Some? ==> r.value < |t| && t[r.value] == '.' && forall j :: r.value < j < |t| ==> t[j] != '.'
    ensures r.None? ==> forall j :: 0 <= j < |t| ==> t[j] != '.'
    decreases |t|
  {
    if t == [] then None
    else if t[|t| - 1] == '.' then Some(|t| - 1)
    else LastDot(t[..|t| - 1])
  }

  /** The type one level up: the part before the last `.`, or `root` when there is none. */
  function ParentLogger(t: string): (p: string)
    ensures |p| < |t| || p == LOGGER_ROOT
  {
    match LastDot(t)
    case Some(found) => t[..found]
    case None => LOGGER_ROOT
  }

  /**
   * `GetLoggerByType`: the logger registered under `t`, or else the one its parent
   * type resolves to; `root` unregistered resolves to nothing.  Each step either
   * shortens the type or reaches `root`, where the recursion stops.
   */
  function GetLoggerByType(reg: Registry, t: string): (r: Option<Logger>)
    ensures t in reg ==> r == Some(reg[t])
    ensures t == LOGGER_ROOT && t !in reg ==> r.None?
    decreases if t == LOGGER_ROOT then 0 else |t| + 1
  {
    if t in reg then Some(reg[t])
    else if t == LOGGER_ROOT then None
    else GetLoggerByType(reg, ParentLogger(t))
  }

  /** `p` is `t` cut just before one of its dots. */
  predicate DotPrefix(p: string, t: string) {
    exists i :: 0 <= i < |t| && t[i] == '.' && p == t[..i]
  }

  /** The names a type may resolve through: itself, each of its dot prefixes, and `root`. */
  predicate Candidate(p: string, t: string) {
    p == t || DotPrefix(p, t) || p == LOGGER_ROOT
  }

  /** The dot prefixes of `t` are its parent and the parent's dot prefixes. */
  lemma DotPrefixOfParent(t: string, q: string)
    requires LastDot(t).Some?
    ensures DotPrefix(q, t) <==> q == ParentLogger(t) || DotPrefix(q, ParentLogger(t))
  {
    var k := LastDot(t).value;
    var p := t[..k];
    if DotPrefix(q, t) {
      var i :| 0 <= i < |t| && t[i] == '.' && q == t[..i];
      if i != k {
        assert i < k;
        assert p[i] == '.' && q == p[..i];
      }
    }
    if DotPrefix(q, p) {
      var i :| 0 <= i < |p| && p[i] == '.' && q == p[..i];
      assert t[i] == '.' && q == t[..i];
    }
    if q == p {
      assert t[k] == '.';
    }
  }

  /** A type without dots has no dot prefixes. */
  lemma NoDotPrefix(t: string, q: string)
    requires LastDot(t).None?
    ensures !DotPrefix(q, t)
  {
  }

  /** Whatever a type resolves to is the logger of one of its candidate names. */
  lemma {:induction false} ResolvesToCandidate(reg: Registry, t: string)
    requires GetLoggerByType(reg, t).Some?
    ensures exists p :: Candidate(p, t) && p in reg && GetLoggerByType(reg, t) == Some(reg[p])
    decreases if t == LOGGER_ROOT then 0 else |t| + 1
  {
    if t !in reg {
      var parent := ParentLogger(t);
      ResolvesToCandidate(reg, parent);
      var p :| Candidate(p, parent) && p in reg && GetLoggerByType(reg, parent) == Some(reg[p]);
      if LastDot(t).Some? {
        DotPrefixOfParent(t, p);
      }
      assert Candidate(p, t);
    }
  }

  /**
   * A type resolves to nothing exactly when neither it, nor any of its dot prefixes,
   * nor `root` is registered.
   */
  lemma {:induction false} ResolvesToNothingIff(reg: Registry, t: string)
    ensures GetLoggerByType(reg, t).None? <==> forall p :: Candidate(p, t) ==> p !in reg
    decreases if t == LOGGER_ROOT then 0 else |t| + 1
  {
    if t !in reg && t != LOGGER_ROOT {
      var parent := ParentLogger(t);
      ResolvesToNothingIff(reg, parent);
      forall p ensures Candidate(p, t) <==> p == t || Candidate(p, parent) {
        if LastDot(t).Some? {
          DotPrefixOfParent(t, p);
        } else {
          NoDotPrefix(t, p);
          NoDotPrefix(LOGGER_ROOT, p);
        }
      }
    } else if t !in reg {
      forall p | Candidate(p, t) ensures p == LOGGER_ROOT {
        NoDotPrefix(LOGGER_ROOT, p);
      }
    }
  }

  /** With `root` registered, every type resolves to some logger. */
  lemma RootServesEveryType(reg: Registry, t: string)
    requires LOGGER_ROOT in reg
    ensures GetLoggerByType(reg, t).Some?
  {
    ResolvesToNothingIff(reg, t);
  }

  /**
   * The nearest registered ancestor wins: when `t` itself is not registered, the dot
   * prefix `t[..i]` is, and no longer dot prefix is, `t` resolves to `t[..i]`'s logger.
   */
  lemma {:induction false} NearestAncestorWins(reg: Registry, t: string, i: nat)
    requires i < |t| && t[i] == '.' && t[..i] in reg && t !in reg
    requires forall j :: i < j < |t| && t[j] == '.' ==> t[..j] !in reg
    ensures GetLoggerByType(reg, t) == Some(reg[t[..i]])
    decreases |t|
  {
    var k := LastDot(t).value;
    var parent := t[..k];
    assert ParentLogger(t) == parent;
    if t != LOGGER_ROOT {
      if k != i {
        assert i < k;
        assert parent !in reg;
        assert parent[..i] == t[..i];
        forall j | i < j < |parent| && parent[j] == '.' ensures parent[..j] !in reg {
          assert parent[..j] == t[..j];
        }
        NearestAncestorWins(reg, parent, i);
      }
    }
  }

  // ---------------------------------------------------------------------------
  // The level gate

  /**
   * `ShouldLog(type, level)`: false below the lowest configured level and when no logger
   * resolves; otherwise whether the resolved logger is enabled at `level`.
   */
  function ShouldLog(reg: Registry, lowestLogLevel: LogLevel, t: string, level: LogLevel): (b: bool)
    ensures level < lowestLogLevel ==> !b
    ensures GetLoggerByType(reg, t).None? ==> !b
    ensures b ==> exists p :: Candidate(p, t) && p in reg && reg[p].level != LOG_LEVEL_DISABLED && reg[p].level <= level
  {
    if level < lowestLogLevel then false
    else match GetLoggerByType(reg, t)
      case None => false
      case Some(logger) =>
        ResolvesToCandidate(reg, t);
        logger.level != LOG_LEVEL_DISABLED && logger.level <= level
  }

  /** What the resolved logger alone decides, without the shortcut on `lowestLogLevel`. */
  predicate EnabledFor(reg: Registry, t: string, level: LogLevel) {
    match GetLoggerByType(reg, t)
    case None => false
    case Some(logger) => logger.level != LOG_LEVEL_DISABLED && logger.level <= level
  }

  /**
   * The shortcut is only an optimisation: when `lowestLogLevel` is at most the level of
   * every registered logger, as loading the configuration keeps it, the gate answers
   * what the resolved logger would.
   */
  lemma ShortcutIsSound(reg: Registry, lowestLogLevel: LogLevel, t: string, level: LogLevel)
    requires forall n :: n in reg ==> lowestLogLevel <= reg[n].level
    ensures ShouldLog(reg, lowestLogLevel, t, level) == EnabledFor(reg, t, level)
  {
    if level < lowestLogLevel && GetLoggerByType(reg, t).Some? {
      ResolvesToCandidate(reg, t);
    }
  }

  /** A message the gate lets through at one level is let through at every higher level. */
  lemma ShouldLogMonotone(reg: Registry, lowestLogLevel: LogLevel, t: string, l1: LogLevel, l2: LogLevel)
    requires l1 <= l2
    requires ShouldLog(reg, lowestLogLevel, t, l1)
    ensures ShouldLog(reg, lowestLogLevel, t, l2)
  {
  }

  // ---------------------------------------------------------------------------
  // Options

  /**
   * `GetPositionOptions`: field `position` of a comma-separated option, empty fields
   * kept, or `def` when there are too few.  The field count is compared after its
   * truncation to `uint8`, so 256 fields or more count modulo 256.
   */
  function GetPositionOptions(options: string, position: nat, def: string): (r: string)
    requires position < 0x100
    ensures var tokens := Tokenize(options, ',', true);
      && (|tokens| < 0x100 ==> r == if position < |tokens| then tokens[position] else def)
      && (|tokens| % 0x100 <= position ==> r == def)
      && (position < |tokens| % 0x100 ==> r == tokens[position])
  {
    var tokens := Tokenize(options, ',', true);
    if |tokens| % 0x100 < position + 1 then def else tokens[position]
  }

  /** A field is found again by its position in the option that joins the fields. */
  lemma PositionOfJoinedField(fields: seq<string>, position: nat, def: string)
    requires |fields| < 0x100 && position < |fields|
    requires forall i :: 0 <= i < |fields| ==> ',' !in fields[i]
    ensures GetPositionOptions(Join(fields, ','), position, def) == fields[position]
  {
    JoinSplit(fields, ',');
  }

  /** Splitting what `Join` built gives back the pieces. */
  lemma {:induction false} JoinSplit(fields: seq<string>, sep: char)
    requires |fields| >= 1
    requires forall i :: 0 <= i < |fields| ==> sep !in fields[i]
    ensures SplitOn(Join(fields, sep), sep) == fields
    decreases |fields|
  {
    if |fields| == 1 {
      SplitOnNoSeparator(fields[0], sep);
    } else {
      JoinSplit(fields[1..], sep);
      SplitAfterPiece(fields[0], Join(fields[1..], sep), sep);
      assert [fields[0]] + fields[1..] == fields;
    }
  }

  /** A piece without the separator, the separator, and a rest split as the piece and the rest's pieces. */
  lemma {:induction false} SplitAfterPiece(a: string, rest: string, sep: char)
    requires sep !in a
    ensures SplitOn(a + [sep] + rest, sep) == [a] + SplitOn(rest, sep)
    decreases |a|
  {
    if a == [] {
      assert a + [sep] + rest == [sep] + rest;
      assert ([sep] + rest)[1..] == rest;
    } else {
      var s := a + [sep] + rest;
      assert s[0] == a[0];
      assert s[1..] == a[1..] + [sep] + rest;
      SplitAfterPiece(a[1..], rest, sep);
      assert [a[0]] + a[1..] == a;
    }
  }

  /** `InitLogsDir`: a non-empty directory that does not end in `/` or `\` gets a `/`. */
  function NormalizeLogsDir(v: string): (r: string)
    ensures r == "" <==> v == ""
    ensures r == v || r == v + "/"
    ensures r != "" ==> r[|r| - 1] == '/' || r[|r| - 1] == '\\'
    ensures v != "" && (v[|v| - 1] == '/' || v[|v| - 1] == '\\') ==> r == v
  {
    if v != "" && v[|v| - 1] != '/' && v[|v| - 1] != '\\' then v + "/" else v
  }

  /** Normalising twice is normalising once. */
  lemma NormalizeLogsDirIdempotent(v: string)
    ensures NormalizeLogsDir(NormalizeLogsDir(v)) == NormalizeLogsDir(v)
  {
  }

  // ---------------------------------------------------------------------------
  // Colours

  /** `GetColorCode`: the first colour whose name matches, ignoring case; white otherwise. */
  function GetColorCode(colorName: string): ConsoleColor {
    if EqualI(colorName, "black") then Black
    else if EqualI(colorName, "red") then Red
    else if EqualI(colorName, "green") then Green
    else if EqualI(colorName, "brown") then Brown
    else if EqualI(colorName, "blue") then Blue
    else if EqualI(colorName, "magenta") then Magenta
    else if EqualI(colorName, "cyan") then Cyan
    else if EqualI(colorName, "gray") then Gray
    else if EqualI(colorName, "darkGray") then DarkGray
    else if EqualI(colorName, "lightRed") then LightRed
    else if EqualI(colorName, "lightGreen") then LightGreen
    else if EqualI(colorName, "yellow") then Yellow
    else if EqualI(colorName, "lightBlue") then LightBlue
    else if EqualI(colorName, "lightMagenta") then LightMagenta
    else if EqualI(colorName, "lightCyan") then LightCyan
    else if EqualI(colorName, "white") then White
    else White
  }

  /** The name the configuration uses for each colour. */
  function ColorName(c: ConsoleColor): string {
    match c
    case Black => "black"
    case Red => "red"
    case Green => "green"
    case Brown => "brown"
    case Blue => "blue"
    case Magenta => "magenta"
    case Cyan => "cyan"
    case Gray => "gray"
    case DarkGray => "darkGray"
    case LightRed => "lightRed"
    case LightGreen => "lightGreen"
    case Yellow => "yellow"
    case LightBlue => "lightBlue"
    case LightMagenta => "lightMagenta"
    case LightCyan => "lightCyan"
    case White => "white"
  }

  lemma EqualIReflexive(a: string)
    ensures EqualI(a, a)
  {
  }

  lemma EqualISymmetric(a: string, b: string)
    requires EqualI(a, b)
    ensures EqualI(b, a)
  {
  }

  lemma EqualITransitive(a: string, b: string, c: string)
    requires EqualI(a, b) && EqualI(b, c)
    ensures EqualI(a, c)
  {
  }

  /** Names that match ignoring case match the same names. */
  lemma SameMatches(a: string, b: string, n: string)
    requires EqualI(a, b)
    ensures EqualI(a, n) <==> EqualI(b, n)
  {
    EqualISymmetric(a, b);
    if EqualI(a, n) {
      EqualITransitive(b, a, n);
    }
    if EqualI(b, n) {
      EqualITransitive(a, b, n);
    }
  }

  /** Case never matters: names that match ignoring case select the same colour. */
  lemma ColorCodeIgnoresCase(a: string, b: string)
    requires EqualI(a, b)
    ensures GetColorCode(a) == GetColorCode(b)
  {
    SameMatches(a, b, "black");
    SameMatches(a, b, "red");
    SameMatches(a, b, "green");
    SameMatches(a, b, "brown");
    SameMatches(a, b, "blue");
    SameMatches(a, b, "magenta");
    SameMatches(a, b, "cyan");
    SameMatches(a, b, "gray");
    SameMatches(a, b, "darkGray");
    SameMatches(a, b, "lightRed");
    SameMatches(a, b, "lightGreen");
    SameMatches(a, b, "yellow");
    SameMatches(a, b, "lightBlue");
    SameMatches(a, b, "lightMagenta");
    SameMatches(a, b, "lightCyan");
    SameMatches(a, b, "white");
  }

  /** Names with letters that differ ignoring case at some position do not match. */
  lemma DiffersAt(a: string, b: string, i: nat)
    requires i < |a| && i < |b| && ToLower(a[i]) != ToLower(b[i])
    ensures !EqualI(a, b)
  {
  }

  /** Every colour is read back from its own name. */
  lemma ColorNameRoundTrip(c: ConsoleColor)
    ensures GetColorCode(ColorName(c)) == c
  {
    EqualIReflexive(ColorName(c));
    if c.Black? || c.Red? || c.Green? || c.Brown? {
      ColorNameRoundTrip1(c);
    } else if c.Blue? || c.Magenta? || c.Cyan? || c.Gray? {
      ColorNameRoundTrip2(c);
    } else if c.DarkGray? || c.LightRed? || c.LightGreen? || c.Yellow? {
      ColorNameRoundTrip3(c);
    } else {
      ColorNameRoundTrip4(c);
    }
  }

  /** Black, red, green and brown are read back from their names: every earlier name differs from theirs. */
  lemma ColorNameRoundTrip1(c: ConsoleColor)
    requires c.Black? || c.Red? || c.Green? || c.Brown?
    requires EqualI(ColorName(c), ColorName(c))
    ensures GetColorCode(ColorName(c)) == c
  {
    match c
    case Red =>
      assert !EqualI("red", "black");
    case Green =>
      DiffersAt("green", "black", 0);
      assert !EqualI("green", "red");
    case Brown =>
      DiffersAt("brown", "black", 1);
      DiffersAt("brown", "green", 0);
      assert !EqualI("brown", "red");
    case _ =>
  }

  /** Blue, magenta, cyan and gray are read back from their names: every earlier name differs from theirs. */
  lemma ColorNameRoundTrip2(c: ConsoleColor)
    requires c.Blue? || c.Magenta? || c.Cyan? || c.Gray?
    requires EqualI(ColorName(c), ColorName(c))
    ensures GetColorCode(ColorName(c)) == c
  {
    match c
    case Blue =>
      assert !EqualI("blue", "black") && !EqualI("blue", "red") && !EqualI("blue", "green") && !EqualI("blue", "brown");
    case Magenta =>
      assert !EqualI("magenta", "black") && !EqualI("magenta", "red") && !EqualI("magenta", "green") && !EqualI("magenta", "brown");
      assert !EqualI("magenta", "blue");
    case Cyan =>
      DiffersAt("cyan", "blue", 0);
      assert !EqualI("cyan", "black") && !EqualI("cyan", "red") && !EqualI("cyan", "green") && !EqualI("cyan", "brown");
      assert !EqualI("cyan", "magenta");
    case Gray =>
      DiffersAt("gray", "blue", 0);
      DiffersAt("gray", "cyan", 0);
      assert !EqualI("gray", "black") && !EqualI("gray", "red") && !EqualI("gray", "green") && !EqualI("gray", "brown");
      assert !EqualI("gray", "magenta");
  }

  /** Dark gray, light red, light green and yellow are read back from their names: every earlier name differs from theirs. */
  lemma ColorNameRoundTrip3(c: ConsoleColor)
    requires c.DarkGray? || c.LightRed? || c.LightGreen? || c.Yellow?
    requires EqualI(ColorName(c), ColorName(c))
    ensures GetColorCode(ColorName(c)) == c
  {
    match c
    case DarkGray =>
      assert !EqualI("darkGray", "black") && !EqualI("darkGray", "red") && !EqualI("darkGray", "green") && !EqualI("darkGray", "brown");
      assert !EqualI("darkGray", "blue") && !EqualI("darkGray", "magenta") && !EqualI("darkGray", "cyan") && !EqualI("darkGray", "gray");
    case LightRed =>
      DiffersAt("lightRed", "darkGray", 0);
      assert !EqualI("lightRed", "black") && !EqualI("lightRed", "red") && !EqualI("lightRed", "green") && !EqualI("lightRed", "brown");
      assert !EqualI("lightRed", "blue") && !EqualI("lightRed", "magenta") && !EqualI("lightRed", "cyan") && !EqualI("lightRed", "gray");
    case LightGreen =>
      assert !EqualI("lightGreen", "black") && !EqualI("lightGreen", "red") && !EqualI("lightGreen", "green") && !EqualI("lightGreen", "brown");
      assert !EqualI("lightGreen", "blue") && !EqualI("lightGreen", "magenta") && !EqualI("lightGreen", "cyan") && !EqualI("lightGreen", "gray");
      assert !EqualI("lightGreen", "darkGray") && !EqualI("lightGreen", "lightRed");
    case Yellow =>
      assert !EqualI("yellow", "black") && !EqualI("yellow", "red") && !EqualI("yellow", "green") && !EqualI("yellow", "brown");
      assert !EqualI("yellow", "blue") && !EqualI("yellow", "magenta") && !EqualI("yellow", "cyan") && !EqualI("yellow", "gray");
      assert !EqualI("yellow", "darkGray") && !EqualI("yellow", "lightRed") && !EqualI("yellow", "lightGreen");
  }

  /** Light blue, light magenta, light cyan and white are read back from their names: every earlier name differs from theirs. */
  lemma ColorNameRoundTrip4(c: ConsoleColor)
    requires c.LightBlue? || c.LightMagenta? || c.LightCyan? || c.White?
    requires EqualI(ColorName(c), ColorName(c))
    ensures GetColorCode(ColorName(c)) == c
  {
    match c
    case LightBlue =>
      assert !EqualI("lightBlue", "black") && !EqualI("lightBlue", "red") && !EqualI("lightBlue", "green") && !EqualI("lightBlue", "brown");
      assert !EqualI("lightBlue", "blue") && !EqualI("lightBlue", "magenta") && !EqualI("lightBlue", "cyan") && !EqualI("lightBlue", "gray");
      assert !EqualI("lightBlue", "darkGray") && !EqualI("lightBlue", "lightRed") && !EqualI("lightBlue", "lightGreen") && !EqualI("lightBlue", "yellow");
    case LightMagenta =>
      assert !EqualI("lightMagenta", "black") && !EqualI("lightMagenta", "red") && !EqualI("lightMagenta", "green") && !EqualI("lightMagenta", "brown");
      assert !EqualI("lightMagenta", "blue") && !EqualI("lightMagenta", "magenta") && !EqualI("lightMagenta", "cyan") && !EqualI("lightMagenta", "gray");
      assert !EqualI("lightMagenta", "darkGray") && !EqualI("lightMagenta", "lightRed") && !EqualI("lightMagenta", "lightGreen") && !EqualI("lightMagenta", "yellow");
      assert !EqualI("lightMagenta", "lightBlue");
    case LightCyan =>
      DiffersAt("lightCyan", "lightBlue", 5);
      assert !EqualI("lightCyan", "black") && !EqualI("lightCyan", "red") && !EqualI("lightCyan", "green") && !EqualI("lightCyan", "brown");
      assert !EqualI("lightCyan", "blue") && !EqualI("lightCyan", "magenta") && !EqualI("lightCyan", "cyan") && !EqualI("lightCyan", "gray");
      assert !EqualI("lightCyan", "darkGray") && !EqualI("lightCyan", "lightRed") && !EqualI("lightCyan", "lightGreen") && !EqualI("lightCyan", "yellow");
      assert !EqualI("lightCyan", "lightMagenta");
    case White =>
      DiffersAt("white", "black", 0);
      DiffersAt("white", "green", 0);
      DiffersAt("white", "brown", 0);
      assert !EqualI("white", "red") && !EqualI("white", "blue") && !EqualI("white", "magenta") && !EqualI("white", "cyan");
      assert !EqualI("white", "gray") && !EqualI("white", "darkGray") && !EqualI("white", "lightRed") && !EqualI("white", "lightGreen");
      assert !EqualI("white", "yellow") && !EqualI("white", "lightBlue") && !EqualI("white", "lightMagenta") && !EqualI("white", "lightCyan");
  }

  // ---------------------------------------------------------------------------
  // Reading the configuration

  /** A level field: an in-range `uint8`, or `LogLevel::Max` when it does not parse. */
  function ParseLevel(field: string): (l: nat)
    ensures l < 0x100
  {
    StringToUint8(field).GetOr(LOG_LEVEL_MAX)
  }

  /** Every valid level is read back from its decimal text. */
  lemma ParseLevelDecimal(l: LogLevel)
    requires l < LOG_LEVEL_MAX
    ensures ParseLevel(Decimal(l)) == l
  {
    ParseDecimal(l, 0x100);
  }

  /** What `CreateLoggerFromConfig` makes of one `Logger.*` key. */
  datatype LoggerConfig =
    | LoggerRejected
    | LoggerAccepted(name: string, level: LogLevel, sinkNames: seq<string>)

  /**
   * The validation of `CreateLoggerFromConfig`: a key, a non-empty option with at least
   * `LoggerOptions::Max` fields, and a level below `LogLevel::Max`.  The logger is named
   * by the key without its `Logger.` prefix, and takes the space-separated sinks of the
   * second field.
   */
  function LoggerFromConfig(cfg: Config, key: string): (c: LoggerConfig)
    requires key == "" || |key| >= PREFIX_LOGGER_LENGTH
    ensures c.LoggerAccepted? ==> key != "" && c.name == key[PREFIX_LOGGER_LENGTH..] && c.level < LOG_LEVEL_MAX
    ensures c.LoggerAccepted? ==> forall i :: 0 <= i < |c.sinkNames| ==> c.sinkNames[i] != "" && ' ' !in c.sinkNames[i]
  {
    if key == "" then LoggerRejected
    else
      var options := GetOption(cfg, key, "");
      var loggerName := key[PREFIX_LOGGER_LENGTH..];
      if options == "" then LoggerRejected
      else
        var tokens := Tokenize(options, ',', true);
        if |tokens| == 0 || |tokens| < LOGGER_OPTION_MAX then LoggerRejected
        else
          var level := ParseLevel(GetPositionOptions(options, LOGGER_OPTION_LEVEL, ""));
          if level >= LOG_LEVEL_MAX then LoggerRejected
          else LoggerAccepted(loggerName, level, Tokenize(GetPositionOptions(options, LOGGER_OPTION_SINK_NAME, ""), ' ', false))
  }

  /**
   * A key is accepted exactly when it is non-empty, its option is present and non-empty,
   * the option has at least two comma-separated fields, and the first field is a level
   * below `LogLevel::Max`.  A field count that truncates to 0 in `uint8` (256, 512, ...)
   * hides the level field, and the key is rejected.
   */
  lemma LoggerAcceptedIff(cfg: Config, key: string)
    requires key == "" || |key| >= PREFIX_LOGGER_LENGTH
    ensures LoggerFromConfig(cfg, key).LoggerAccepted? <==>
      && key != "" && key in cfg && cfg[key] != ""
      && |Tokenize(cfg[key], ',', true)| >= LOGGER_OPTION_MAX
      && |Tokenize(cfg[key], ',', true)| % 0x100 != 0
      && ParseLevel(Tokenize(cfg[key], ',', true)[LOGGER_OPTION_LEVEL]) < LOG_LEVEL_MAX
  {
    assert ParseLevel("") == LOG_LEVEL_MAX;
  }

  /** The option `<level>,<sinks>` for a valid level names the logger after its key, at that level. */
  lemma LoggerFromLevelAndSinks(cfg: Config, name: string, l: LogLevel, sinks: string)
    requires l < LOG_LEVEL_MAX && ',' !in sinks
    requires PREFIX_LOGGER + name in cfg && cfg[PREFIX_LOGGER + name] == Decimal(l) + [','] + sinks
    ensures LoggerFromConfig(cfg, PREFIX_LOGGER + name) == LoggerAccepted(name, l, Tokenize(sinks, ' ', false))
  {
    var key := PREFIX_LOGGER + name;
    assert key[PREFIX_LOGGER_LENGTH..] == name;
    var fields := [Decimal(l), sinks];
    assert Join(fields, ',') == Decimal(l) + [','] + sinks by {
      assert fields[1..] == [sinks];
    }
    assert forall i :: 0 <= i < |fields| ==> ',' !in fields[i] by {
      assert AllDigits(Decimal(l));
    }
    JoinSplit(fields, ',');
    PositionOfJoinedField(fields, 0, "");
    PositionOfJoinedField(fields, 1, "");
    ParseLevelDecimal(l);
  }

  /** What `CreateSinksFromConfig` makes of one `Sink.*` key. */
  datatype SinkConfig =
    | SinkSkipped
    | SinkAborted
    | SinkBuilt(name: string, sink: Sink)

  /** `maxFilesSize * 1048576` in `uint64`: megabytes to bytes, modulo 2^64. */
  function MegabytesToBytes(mb: nat): (bytes: nat)
    ensures bytes < UINT64_LIMIT
    ensures mb * 1048576 < UINT64_LIMIT ==> bytes == mb * 1048576
  {
    (mb * 1048576) % UINT64_LIMIT
  }

  /** The colours of a console sink: set exactly when the colour option names six, one per level. */
  function ConsoleColors(colorOptions: string): (cs: Option<seq<ConsoleColor>>)
    ensures cs.Some? <==> colorOptions != "" && |Tokenize(colorOptions, ' ', false)| == LOG_LEVEL_MAX - 1
    ensures cs.Some? ==> |cs.value| == LOG_LEVEL_MAX - 1
    ensures cs.Some? ==> forall i :: 0 <= i < |cs.value| ==> cs.value[i] == GetColorCode(Tokenize(colorOptions, ' ', false)[i])
  {
    if colorOptions == "" then None
    else
      var tokensColor := Tokenize(colorOptions, ' ', false);
      if |tokensColor| == LOG_LEVEL_MAX - 1 then
        Some([GetColorCode(tokensColor[0]), GetColorCode(tokensColor[1]), GetColorCode(tokensColor[2]),
              GetColorCode(tokensColor[3]), GetColorCode(tokensColor[4]), GetColorCode(tokensColor[5])])
      else None
  }

  /**
   * The validation of `CreateSinksFromConfig`.  Bad counts, types, levels and patterns
   * skip the sink; a type that passes the range check but is neither console nor file
   * (that is, 0), and a file sink with a missing file name or an unreadable rotation,
   * size or count option, abort the process.
   */
  function SinkFromConfig(cfg: Config, key: string, logsDir: string): (c: SinkConfig)
    requires key == "" || |key| >= PREFIX_SINK_LENGTH
    ensures c.SinkBuilt? ==> key != "" && c.name == key[PREFIX_SINK_LENGTH..]
    ensures c.SinkBuilt? ==> c.sink.level < LOG_LEVEL_MAX && c.sink.pattern != ""
    ensures c.SinkBuilt? && c.sink.FileSink? ==> logsDir <= c.sink.fileName
  {
    if key == "" then SinkSkipped
    else
      var options := GetOption(cfg, key, "");
      var sinkName := key[PREFIX_SINK_LENGTH..];
      if options == "" then SinkSkipped
      else
        var tokens := Tokenize(options, ',', true);
        if |tokens| < SINK_OPTION_PATTERN + 1 || |tokens| > SINK_OPTION_MAX then SinkSkipped
        else
          var channelType := StringToUint8(GetPositionOptions(options, SINK_OPTION_TYPE, ""));
          if channelType.None? || channelType.value >= SINK_TYPE_MAX then SinkSkipped
          else
            var level := ParseLevel(GetPositionOptions(options, SINK_OPTION_LEVEL, ""));
            if level >= LOG_LEVEL_MAX then SinkSkipped
            else
              var pattern := GetPositionOptions(options, SINK_OPTION_PATTERN, "");
              if pattern == "" then SinkSkipped
              else if channelType.value == SINK_TYPE_CONSOLE then
                SinkBuilt(sinkName, ConsoleSink(level, pattern, ConsoleColors(GetPositionOptions(options, SINK_OPTION_1, ""))))
              else if channelType.value == SINK_TYPE_FILE then
                if |tokens| < SINK_OPTION_1 + 1 then SinkAborted
                else
                  var fileName := GetPositionOptions(options, SINK_OPTION_1, "");
                  var rotateOnOpen := StringToBool(GetPositionOptions(options, SINK_OPTION_2, ""));
                  var maxFilesSize := StringToUint64(GetPositionOptions(options, SINK_OPTION_3, ""));
                  var maxFiles := StringToUint64(GetPositionOptions(options, SINK_OPTION_4, ""));
                  if rotateOnOpen.None? || maxFilesSize.None? || maxFiles.None? then SinkAborted
                  else SinkBuilt(sinkName, FileSink(level, pattern, logsDir + fileName, MegabytesToBytes(maxFilesSize.value),
                                                    maxFiles.value, rotateOnOpen.value))
              else SinkAborted
  }

  /** The fields of a well-formed sink option: three to seven, and all in range. */
  predicate SinkFieldsValid(options: string) {
    var tokens := Tokenize(options, ',', true);
    && SINK_OPTION_PATTERN + 1 <= |tokens| <= SINK_OPTION_MAX
    && StringToUint8(tokens[SINK_OPTION_TYPE]).Some? && StringToUint8(tokens[SINK_OPTION_TYPE]).value < SINK_TYPE_MAX
    && ParseLevel(tokens[SINK_OPTION_LEVEL]) < LOG_LEVEL_MAX
    && tokens[SINK_OPTION_PATTERN] != ""
  }

  /**
   * A sink is skipped exactly when the key or its option is empty or the fields are not
   * valid; once they are, a console sink is built, and a sink of any other type is
   * either built as a file sink or aborts.
   */
  lemma SinkSkippedIff(cfg: Config, key: string, logsDir: string)
    requires key == "" || |key| >= PREFIX_SINK_LENGTH
    ensures SinkFromConfig(cfg, key, logsDir).SinkSkipped? <==>
      key == "" || GetOption(cfg, key, "") == "" || !SinkFieldsValid(GetOption(cfg, key, ""))
    ensures var c := SinkFromConfig(cfg, key, logsDir);
      c.SinkBuilt? ==> (c.sink.ConsoleSink? <==> StringToUint8(Tokenize(GetOption(cfg, key, ""), ',', true)[SINK_OPTION_TYPE]) == Some(SINK_TYPE_CONSOLE))
  {
  }

  /** The file fields of a file sink option all read: rotation, size and count are present and well-formed. */
  predicate FileFieldsRead(tokens: seq<string>) {
    && |tokens| == SINK_OPTION_MAX
    && StringToBool(tokens[SINK_OPTION_2]).Some?
    && StringToUint64(tokens[SINK_OPTION_3]).Some?
    && StringToUint64(tokens[SINK_OPTION_4]).Some?
  }

  /**
   * A sink aborts exactly when its fields are valid and its type is 0, or it is a file
   * sink whose rotation, size or count field is missing or does not read: a missing
   * field falls back to the empty text, which reads as neither.  So a file sink needs
   * all seven fields, and a valid console sink is always built.
   */
  lemma SinkAbortedIff(cfg: Config, key: string, logsDir: string)
    requires key == "" || |key| >= PREFIX_SINK_LENGTH
    ensures SinkFromConfig(cfg, key, logsDir).SinkAborted? <==>
      && key != "" && GetOption(cfg, key, "") != "" && SinkFieldsValid(GetOption(cfg, key, ""))
      && (var tokens := Tokenize(GetOption(cfg, key, ""), ',', true);
          || StringToUint8(tokens[SINK_OPTION_TYPE]) == Some(0)
          || (StringToUint8(tokens[SINK_OPTION_TYPE]) == Some(SINK_TYPE_FILE) && !FileFieldsRead(tokens)))
    ensures key != "" && GetOption(cfg, key, "") != "" && SinkFieldsValid(GetOption(cfg, key, ""))
      && StringToUint8(Tokenize(GetOption(cfg, key, ""), ',', true)[SINK_OPTION_TYPE]) == Some(SINK_TYPE_CONSOLE)
      ==> SinkFromConfig(cfg, key, logsDir).SinkBuilt? && SinkFromConfig(cfg, key, logsDir).sink.ConsoleSink?
  {
    assert StringToBool("") == None;
    assert StringToUint64("") == None;
  }

  /** Type 0 passes the range check on sink types but is no known type: the process aborts. */
  lemma SinkTypeZeroAborts(cfg: Config, key: string, logsDir: string)
    requires |key| >= PREFIX_SINK_LENGTH && key in cfg && cfg[key] != ""
    requires SinkFieldsValid(cfg[key])
    requires StringToUint8(Tokenize(cfg[key], ',', true)[SINK_OPTION_TYPE]) == Some(0)
    ensures SinkFromConfig(cfg, key, logsDir) == SinkAborted
  {
  }

  /** A file sink with only the three mandatory fields has no file name: the process aborts. */
  lemma FileSinkWithoutNameAborts(cfg: Config, key: string, logsDir: string)
    requires |key| >= PREFIX_SINK_LENGTH && key in cfg && cfg[key] != ""
    requires SinkFieldsValid(cfg[key]) && |Tokenize(cfg[key], ',', true)| == 3
    requires StringToUint8(Tokenize(cfg[key], ',', true)[SINK_OPTION_TYPE]) == Some(SINK_TYPE_FILE)
    ensures SinkFromConfig(cfg, key, logsDir) == SinkAborted
  {
  }

  /** A file sink with a file name but no rotation field aborts too: the missing field does not parse as a boolean. */
  lemma FileSinkWithoutRotationAborts(cfg: Config, key: string, logsDir: string)
    requires |key| >= PREFIX_SINK_LENGTH && key in cfg && cfg[key] != ""
    requires SinkFieldsValid(cfg[key]) && |Tokenize(cfg[key], ',', true)| == 4
    requires StringToUint8(Tokenize(cfg[key], ',', true)[SINK_OPTION_TYPE]) == Some(SINK_TYPE_FILE)
    ensures SinkFromConfig(cfg, key, logsDir) == SinkAborted
  {
    var options := cfg[key];
    assert GetPositionOptions(options, SINK_OPTION_2, "") == "";
    assert StringToBool("") == None;
  }

  // ---------------------------------------------------------------------------
  // The sink list

  /** `AddSink` on the map: a name already present keeps its entry. */
  function AddSinkTo(m: map<string, Option<Sink>>, name: string, sink: Sink): (r: map<string, Option<Sink>>)
    ensures r.Keys == m.Keys + {name}
    ensures forall n :: n in m ==> r[n] == m[n]
    ensures name !in m ==> r[name] == Some(sink)
  {
    if name in m then m else m[name := Some(sink)]
  }

  /** A sink handed out, if any, and the sink list afterwards. */
  datatype Handout = Handout(sinks: seq<Sink>, remaining: map<string, Option<Sink>>)

  /**
   * `GetSink` on the map: the stored sink, moved out, so its entry stays but holds
   * nothing.  An absent name gives nothing and changes nothing.
   */
  function TakeSink(m: map<string, Option<Sink>>, name: string): (h: Handout)
    ensures h.remaining.Keys == m.Keys
    ensures forall n :: n in m && n != name ==> h.remaining[n] == m[n]
    ensures name in m ==> h.remaining[name].None?
    ensures name in m && m[name].Some? ==> h.sinks == [m[name].value]
    ensures name !in m || m[name].None? ==> h.sinks == []
  {
    if name !in m then Handout([], m)
    else
      var sinks := if m[name].Some? then [m[name].value] else [];
      Handout(sinks, m[name := None])
  }

  /** `GetSink` for each name in turn, keeping the sinks it hands out. */
  function TakeSinks(m: map<string, Option<Sink>>, names: seq<string>): (h: Handout)
    ensures h.remaining.Keys == m.Keys
    ensures forall n :: n in m && n !in names ==> h.remaining[n] == m[n]
    ensures forall n :: n in m && n in names ==> h.remaining[n].None?
    ensures |h.sinks| <= |names|
    ensures forall s :: s in h.sinks ==> exists n :: n in names && n in m && m[n] == Some(s)
    decreases |names|
  {
    if names == [] then Handout([], m)
    else
      var first := TakeSink(m, names[0]);
      var rest := TakeSinks(first.remaining, names[1..]);
      Handout(first.sinks + rest.sinks, rest.remaining)
  }

  /**
   * The sinks stored in `m` under `names`, in order of first mention: a name in `seen`
   * has been mentioned before and contributes nothing again.
   */
  function StoredSinks(m: map<string, Option<Sink>>, names: seq<string>, seen: set<string>): seq<Sink>
    decreases |names|
  {
    if names == [] then []
    else
      var n := names[0];
      (if n !in seen && n in m && m[n].Some? then [m[n].value] else []) + StoredSinks(m, names[1..], seen + {n})
  }

  /** `TakeSinks` on a list whose entries under `seen` are emptied and the others are as in `m0`. */
  lemma {:induction false} TakeSinksFrom(m0: map<string, Option<Sink>>, m: map<string, Option<Sink>>, names: seq<string>, seen: set<string>)
    requires m.Keys == m0.Keys
    requires forall n :: n in m0 && n !in seen ==> m[n] == m0[n]
    requires forall n :: n in m0 && n in seen ==> m[n].None?
    ensures TakeSinks(m, names).sinks == StoredSinks(m0, names, seen)
    decreases |names|
  {
    if names != [] {
      TakeSinksFrom(m0, TakeSink(m, names[0]).remaining, names[1..], seen + {names[0]});
    }
  }

  /** A name mentioned and not yet seen, with a stored sink, contributes that sink. */
  lemma {:induction false} StoredSinksMention(m: map<string, Option<Sink>>, names: seq<string>, seen: set<string>, n: string)
    requires n in names && n !in seen && n in m && m[n].Some?
    ensures m[n].value in StoredSinks(m, names, seen)
    decreases |names|
  {
    if names[0] != n {
      StoredSinksMention(m, names[1..], seen + {names[0]}, n);
    }
  }

  /**
   * `GetSink` for each name hands out exactly the stored sinks of the names, in order of
   * first mention; so every named entry that holds a sink hands it out.
   */
  lemma TakeSinksHandsOutStored(m: map<string, Option<Sink>>, names: seq<string>)
    ensures TakeSinks(m, names).sinks == StoredSinks(m, names, {})
    ensures forall n :: n in names && n in m && m[n].Some? ==> m[n].value in TakeSinks(m, names).sinks
  {
    TakeSinksFrom(m, m, names, {});
    forall n | n in names && n in m && m[n].Some?
      ensures m[n].value in TakeSinks(m, names).sinks
    {
      StoredSinksMention(m, names, {}, n);
    }
  }

  /** One step of `TakeSinks` from position `i` of the names. */
  lemma TakeSinksStep(m: map<string, Option<Sink>>, names: seq<string>, i: nat)
    requires i < |names|
    ensures TakeSinks(m, names[i..]) ==
      Handout(TakeSink(m, names[i]).sinks + TakeSinks(TakeSink(m, names[i]).remaining, names[i + 1..]).sinks,
              TakeSinks(TakeSink(m, names[i]).remaining, names[i + 1..]).remaining)
  {
    assert names[i..][0] == names[i] && names[i..][1..] == names[i + 1..];
  }

  /** The loop invariant of `CollectSinks` is kept by one `GetSink`. */
  lemma CollectStep(m0: map<string, Option<Sink>>, before: map<string, Option<Sink>>, after: map<string, Option<Sink>>,
                    names: seq<string>, i: nat, sinks: seq<Sink>, taken: seq<Sink>)
    requires i < |names|
    requires after == TakeSink(before, names[i]).remaining && taken == TakeSink(before, names[i]).sinks
    requires TakeSinks(m0, names) == Handout(sinks + TakeSinks(before, names[i..]).sinks, TakeSinks(before, names[i..]).remaining)
    ensures TakeSinks(m0, names) == Handout((sinks + taken) + TakeSinks(after, names[i + 1..]).sinks, TakeSinks(after, names[i + 1..]).remaining)
    ensures taken == [] ==> sinks + taken == sinks
  {
    TakeSinksStep(before, names, i);
    var rest := TakeSinks(after, names[i + 1..]);
    assert sinks + (taken + rest.sinks) == (sinks + taken) + rest.sinks;
  }

  /** Nothing is handed out from a list whose named entries are all empty or absent. */
  lemma {:induction false} TakeSinksFromEmpty(m: map<string, Option<Sink>>, names: seq<string>)
    requires forall n :: n in names && n in m ==> m[n].None?
    ensures TakeSinks(m, names).sinks == []
    decreases |names|
  {
    if names != [] {
      TakeSinksFromEmpty(TakeSink(m, names[0]).remaining, names[1..]);
    }
  }

  /** Each sink is handed out once: asking again for the same names gets nothing. */
  lemma TakeSinksOnce(m: map<string, Option<Sink>>, names: seq<string>)
    ensures TakeSinks(TakeSinks(m, names).remaining, names).sinks == []
  {
    TakeSinksFromEmpty(TakeSinks(m, names).remaining, names);
  }

  /** A name whose sink has been handed out is never given a new sink. */
  lemma AddAfterTakeKeepsEmpty(m: map<string, Option<Sink>>, name: string, sink: Sink)
    requires name in m
    ensures AddSinkTo(TakeSink(m, name).remaining, name, sink)[name].None?
  {
  }

  // ---------------------------------------------------------------------------
  // The lowest level

  /** The lowest level after one more logger: lowered to its level if it is accepted below it. */
  function LowerTo(lowest: LogLevel, c: LoggerConfig): LogLevel {
    match c
    case LoggerRejected => lowest
    case LoggerAccepted(_, level, _) => if level < lowest then level else lowest
  }

  /** The lowest level after one more logger key: lowered to an accepted level below it. */
  function LowerBy(lowest: LogLevel, cfg: Config, key: string): (r: LogLevel)
    requires key == "" || |key| >= PREFIX_LOGGER_LENGTH
    ensures r <= lowest
    ensures LoggerFromConfig(cfg, key).LoggerAccepted? ==> r <= LoggerFromConfig(cfg, key).level
    ensures r == lowest || (LoggerFromConfig(cfg, key).LoggerAccepted? && r == LoggerFromConfig(cfg, key).level)
  {
    LowerTo(lowest, LoggerFromConfig(cfg, key))
  }

  predicate LoggerKeys(keys: seq<string>) {
    forall i :: 0 <= i < |keys| ==> PREFIX_LOGGER <= keys[i]
  }

  predicate SinkKeys(keys: seq<string>) {
    forall i :: 0 <= i < |keys| ==> PREFIX_SINK <= keys[i]
  }

  /** The lowest level after the loggers `cs`, in order, starting from `lowest`. */
  function LowestOf(lowest: LogLevel, cs: seq<LoggerConfig>): LogLevel
    decreases |cs|
  {
    if cs == [] then lowest else LowerTo(LowestOf(lowest, cs[..|cs| - 1]), cs[|cs| - 1])
  }

  /** The lowest level after the logger keys, in order, starting from `lowest`. */
  function Lowered(lowest: LogLevel, cfg: Config, keys: seq<string>): LogLevel
    requires LoggerKeys(keys)
  {
    LowestOf(lowest, LoggerConfigs(cfg, keys))
  }

  /**
   * `LowestOf` is the minimum of the starting level and the accepted loggers' levels:
   * at most each of them, and equal to one of them.
   */
  lemma {:induction false} LowestOfIsMinimum(lowest: LogLevel, cs: seq<LoggerConfig>)
    ensures LowestOf(lowest, cs) <= lowest
    ensures forall i :: 0 <= i < |cs| && cs[i].LoggerAccepted? ==> LowestOf(lowest, cs) <= cs[i].level
    ensures LowestOf(lowest, cs) == lowest
      || exists i :: 0 <= i < |cs| && cs[i].LoggerAccepted? && cs[i].level == LowestOf(lowest, cs)
    decreases |cs|
  {
    if cs != [] {
      var init := cs[..|cs| - 1];
      var prev := LowestOf(lowest, init);
      LowestOfIsMinimum(lowest, init);
      var r := LowestOf(lowest, cs);
      forall i | 0 <= i < |cs| && cs[i].LoggerAccepted?
        ensures r <= cs[i].level
      {
        if i < |init| {
          assert cs[i] == init[i];
        }
      }
      if r != lowest && r != prev {
        assert cs[|cs| - 1].LoggerAccepted? && cs[|cs| - 1].level == r;
      } else if r != lowest {
        var j :| 0 <= j < |init| && init[j].LoggerAccepted? && init[j].level == prev;
        assert cs[j] == init[j];
      }
    }
  }

  /** The level a key contributes, if it is accepted. */
  predicate AcceptedAt(cfg: Config, key: string, level: LogLevel)
    requires key == "" || |key| >= PREFIX_LOGGER_LENGTH
  {
    LoggerFromConfig(cfg, key).LoggerAccepted? && LoggerFromConfig(cfg, key).level == level
  }

  /**
   * The lowest level is the minimum of the starting level and every accepted logger's
   * level: at most each of them, and equal to one of them.
   */
  lemma LoweredIsMinimum(lowest: LogLevel, cfg: Config, keys: seq<string>)
    requires LoggerKeys(keys)
    ensures Lowered(lowest, cfg, keys) <= lowest
    ensures forall i :: 0 <= i < |keys| && LoggerFromConfig(cfg, keys[i]).LoggerAccepted? ==>
      Lowered(lowest, cfg, keys) <= LoggerFromConfig(cfg, keys[i]).level
    ensures Lowered(lowest, cfg, keys) == lowest
      || exists i :: 0 <= i < |keys| && AcceptedAt(cfg, keys[i], Lowered(lowest, cfg, keys))
  {
    var cs := LoggerConfigs(cfg, keys);
    LowestOfIsMinimum(lowest, cs);
    var r := Lowered(lowest, cfg, keys);
    if r != lowest {
      var j :| 0 <= j < |cs| && cs[j].LoggerAccepted? && cs[j].level == r;
      assert AcceptedAt(cfg, keys[j], r);
    }
  }

  /** The name a logger key registers, if it is accepted. */
  function AcceptedName(cfg: Config, key: string): set<string>
    requires key == "" || |key| >= PREFIX_LOGGER_LENGTH
  {
    match LoggerFromConfig(cfg, key)
    case LoggerRejected => {}
    case LoggerAccepted(name, _, _) => {name}
  }

  /** What reading the logger keys reads and changes: the lowest level, the sink list and the registry. */
  datatype LoggerState = LoggerState(lowest: LogLevel, sinkList: map<string, Option<Sink>>, registry: Registry)

  /** Every logger is registered under its own name, at a valid level no lower than `lowest`. */
  predicate ValidState(s: LoggerState) {
    forall n :: n in s.registry ==> s.registry[n].name == n && s.lowest <= s.registry[n].level < LOG_LEVEL_MAX
  }

  /**
   * `CreateLoggerFromConfig` on the state: an accepted key lowers the level to its own,
   * takes the sinks it names, and registers its logger unless the name is taken
   * (`register_logger` throws, and the error is caught).  The sinks are taken, and the
   * level lowered, even when the registration fails.  A rejected key changes nothing.
   */
  function CreateLogger(s: LoggerState, cfg: Config, key: string): (r: LoggerState)
    requires key == "" || |key| >= PREFIX_LOGGER_LENGTH
    ensures r.lowest == LowerBy(s.lowest, cfg, key)
    ensures r.registry.Keys == s.registry.Keys + AcceptedName(cfg, key)
    ensures forall n :: n in s.registry ==> r.registry[n] == s.registry[n]
    ensures r.sinkList.Keys == s.sinkList.Keys
    ensures var c := LoggerFromConfig(cfg, key);
      c.LoggerAccepted? ==> r.sinkList == TakeSinks(s.sinkList, c.sinkNames).remaining
    ensures var c := LoggerFromConfig(cfg, key);
      c.LoggerAccepted? && c.name !in s.registry ==>
        r.registry[c.name] == Logger(c.name, c.level, TakeSinks(s.sinkList, c.sinkNames).sinks)
    ensures LoggerFromConfig(cfg, key).LoggerRejected? ==> r == s
    ensures ValidState(s) ==> ValidState(r)
  {
    ApplyLogger(s, LoggerFromConfig(cfg, key))
  }

  /** `CreateLogger` for each logger key in turn. */
  function LoadLoggers(s: LoggerState, cfg: Config, keys: seq<string>): LoggerState
    requires LoggerKeys(keys)
    decreases |keys|
  {
    if keys == [] then s else CreateLogger(LoadLoggers(s, cfg, keys[..|keys| - 1]), cfg, keys[|keys| - 1])
  }

  /** One more key is one more `CreateLogger`. */
  lemma LoadLoggersSnoc(s: LoggerState, cfg: Config, keys: seq<string>, i: nat)
    requires LoggerKeys(keys) && i < |keys|
    ensures LoggerKeys(keys[..i]) && LoggerKeys(keys[..i + 1])
    ensures LoadLoggers(s, cfg, keys[..i + 1]) == CreateLogger(LoadLoggers(s, cfg, keys[..i]), cfg, keys[i])
  {
    assert keys[..i + 1][..i] == keys[..i];
  }

  /**
   * After the logger keys the lowest level is `Lowered`, the registry holds the names
   * registered before and every accepted name and no other, the loggers registered
   * before are kept, and the state stays valid.
   */
  lemma {:induction false} LoadLoggersFacts(s: LoggerState, cfg: Config, keys: seq<string>)
    requires LoggerKeys(keys)
    ensures LoadLoggers(s, cfg, keys).lowest == Lowered(s.lowest, cfg, keys)
    ensures LoadLoggers(s, cfg, keys).registry.Keys == s.registry.Keys + AcceptedNames(cfg, keys)
    ensures forall n :: n in s.registry ==> LoadLoggers(s, cfg, keys).registry[n] == s.registry[n]
    ensures ValidState(s) ==> ValidState(LoadLoggers(s, cfg, keys))
    decreases |keys|
  {
    if keys == [] {
      assert LoggerConfigs(cfg, keys) == [];
    } else {
      var k := |keys| - 1;
      LoggerKeysSnoc(s.lowest, cfg, keys, k);
      assert keys[..k + 1] == keys;
      LoadLoggersFacts(s, cfg, keys[..k]);
    }
  }

  /** Two logger keys that name the same logger are the same key. */
  lemma LoggerKeyOfName(k1: string, k2: string)
    requires PREFIX_LOGGER <= k1 && PREFIX_LOGGER <= k2
    requires k1[PREFIX_LOGGER_LENGTH..] == k2[PREFIX_LOGGER_LENGTH..]
    ensures k1 == k2
  {
    assert k1 == PREFIX_LOGGER + k1[PREFIX_LOGGER_LENGTH..];
    assert k2 == PREFIX_LOGGER + k2[PREFIX_LOGGER_LENGTH..];
  }

  /** `CreateLogger` on what the key was made into. */
  function ApplyLogger(s: LoggerState, c: LoggerConfig): (r: LoggerState)
    ensures r.registry.Keys == s.registry.Keys + (if c.LoggerAccepted? then {c.name} else {})
    ensures forall n :: n in s.registry ==> r.registry[n] == s.registry[n]
  {
    match c
    case LoggerRejected => s
    case LoggerAccepted(name, level, sinkNames) =>
      var h := TakeSinks(s.sinkList, sinkNames);
      var lowest := if level < s.lowest then level else s.lowest;
      LoggerState(lowest, h.remaining, if name in s.registry then s.registry else s.registry[name := Logger(name, level, h.sinks)])
  }

  /** `ApplyLogger` for each of `cs` in turn. */
  function ApplyLoggers(s: LoggerState, cs: seq<LoggerConfig>): LoggerState
    decreases |cs|
  {
    if cs == [] then s else ApplyLogger(ApplyLoggers(s, cs[..|cs| - 1]), cs[|cs| - 1])
  }

  /** Loading the keys is applying what they are made into. */
  lemma {:induction false} LoadLoggersIsApply(s: LoggerState, cfg: Config, keys: seq<string>)
    requires LoggerKeys(keys)
    ensures LoadLoggers(s, cfg, keys) == ApplyLoggers(s, LoggerConfigs(cfg, keys))
    decreases |keys|
  {
    if keys != [] {
      var k := |keys| - 1;
      LoggerKeysSnoc(s.lowest, cfg, keys, k);
      assert keys[..k + 1] == keys;
      assert LoggerConfigs(cfg, keys)[..k] == LoggerConfigs(cfg, keys[..k]);
      LoadLoggersIsApply(s, cfg, keys[..k]);
    }
  }

  /** The registry after `cs` holds the earlier names and the accepted ones, and keeps the earlier loggers. */
  lemma {:induction false} ApplyLoggersKeys(s: LoggerState, cs: seq<LoggerConfig>)
    ensures ApplyLoggers(s, cs).registry.Keys == s.registry.Keys + RegisteredNames(cs)
    ensures forall n :: n in s.registry ==> ApplyLoggers(s, cs).registry[n] == s.registry[n]
    decreases |cs|
  {
    if cs != [] {
      ApplyLoggersKeys(s, cs[..|cs| - 1]);
    }
  }

  /** The logger `c` is registered as when its name is new to `st`. */
  function Built(st: LoggerState, c: LoggerConfig): Logger
    requires c.LoggerAccepted?
  {
    Logger(c.name, c.level, TakeSinks(st.sinkList, c.sinkNames).sinks)
  }

  /** Loggers of the same name among `cs` are the same. */
  predicate SameByName(cs: seq<LoggerConfig>, i: nat)
    requires i < |cs| && cs[i].LoggerAccepted?
  {
    forall j :: 0 <= j < |cs| && cs[j].LoggerAccepted? && cs[j].name == cs[i].name ==> cs[j] == cs[i]
  }

  /**
   * `LoadLoggersRegisters` on what the keys were made into, where loggers of the same
   * name are the same.
   */
  lemma {:induction false} ApplyRegisters(s: LoggerState, cs: seq<LoggerConfig>, i: nat)
    requires i < |cs| && cs[i].LoggerAccepted? && cs[i].name !in s.registry && SameByName(cs, i)
    ensures var reg := ApplyLoggers(s, cs).registry;
      cs[i].name in reg && reg[cs[i].name].name == cs[i].name && reg[cs[i].name].level == cs[i].level
    ensures (forall j :: 0 <= j < i ==> cs[j] != cs[i]) ==>
      ApplyLoggers(s, cs).registry[cs[i].name] == Built(ApplyLoggers(s, cs[..i]), cs[i])
    decreases |cs|, 1
  {
    var k := |cs| - 1;
    var init := cs[..k];
    if i < k {
      assert init[i] == cs[i] && init[..i] == cs[..i];
      assert SameByName(init, i) by {
        forall j | 0 <= j < |init| && init[j].LoggerAccepted? && init[j].name == init[i].name
          ensures init[j] == init[i]
        {
          assert init[j] == cs[j];
        }
      }
      ApplyRegisters(s, init, i);
    } else {
      ApplyRegistersLast(s, cs);
    }
  }

  /** `ApplyRegisters` for the last logger. */
  lemma {:induction false} ApplyRegistersLast(s: LoggerState, cs: seq<LoggerConfig>)
    requires cs != [] && cs[|cs| - 1].LoggerAccepted? && cs[|cs| - 1].name !in s.registry && SameByName(cs, |cs| - 1)
    ensures var reg := ApplyLoggers(s, cs).registry; var c := cs[|cs| - 1];
      c.name in reg && reg[c.name].name == c.name && reg[c.name].level == c.level
    ensures (forall j :: 0 <= j < |cs| - 1 ==> cs[j] != cs[|cs| - 1]) ==>
      ApplyLoggers(s, cs).registry[cs[|cs| - 1].name] == Built(ApplyLoggers(s, cs[..|cs| - 1]), cs[|cs| - 1])
    decreases |cs|, 0
  {
    var k := |cs| - 1;
    var init := cs[..k];
    var c := cs[k];
    if c.name in ApplyLoggers(s, init).registry {
      ApplyLoggersKeys(s, init);
      RegisteredNamesIff(init, c.name);
      var j :| 0 <= j < |init| && init[j].LoggerAccepted? && init[j].name == c.name;
      assert cs[j] == init[j];
      assert SameByName(init, j) by {
        forall x | 0 <= x < |init| && init[x].LoggerAccepted? && init[x].name == init[j].name
          ensures init[x] == init[j]
        {
          assert init[x] == cs[x];
        }
      }
      ApplyRegisters(s, init, j);
    }
  }

  /**
   * A key accepted under a name not registered before leaves that name registered at
   * the key's level.  At the key's first occurrence the logger is exactly the one it
   * built: its level and the sinks it took from the list as it stood at its turn.
   */
  lemma LoadLoggersRegisters(s: LoggerState, cfg: Config, keys: seq<string>, i: nat)
    requires LoggerKeys(keys) && i < |keys|
    requires LoggerFromConfig(cfg, keys[i]).LoggerAccepted? && LoggerFromConfig(cfg, keys[i]).name !in s.registry
    ensures LoggerKeys(keys[..i])
    ensures var c := LoggerFromConfig(cfg, keys[i]); var reg := LoadLoggers(s, cfg, keys).registry;
      c.name in reg && reg[c.name].name == c.name && reg[c.name].level == c.level
    ensures var c := LoggerFromConfig(cfg, keys[i]);
      (forall j :: 0 <= j < i ==> keys[j] != keys[i]) ==>
        LoadLoggers(s, cfg, keys).registry[c.name] ==
          Logger(c.name, c.level, TakeSinks(LoadLoggers(s, cfg, keys[..i]).sinkList, c.sinkNames).sinks)
  {
    var cs := LoggerConfigs(cfg, keys);
    LoggerKeysSnoc(s.lowest, cfg, keys, i);
    LoadLoggersIsApply(s, cfg, keys);
    LoadLoggersIsApply(s, cfg, keys[..i]);
    assert LoggerConfigs(cfg, keys[..i]) == cs[..i];
    assert SameByName(cs, i) by {
      forall j | 0 <= j < |cs| && cs[j].LoggerAccepted? && cs[j].name == cs[i].name
        ensures cs[j] == cs[i]
      {
        LoggerKeyOfName(keys[j], keys[i]);
      }
    }
    if forall j :: 0 <= j < i ==> keys[j] != keys[i] {
      forall j | 0 <= j < i
        ensures cs[j] != cs[i]
      {
        if cs[j].LoggerAccepted? && cs[j].name == cs[i].name {
          LoggerKeyOfName(keys[j], keys[i]);
        }
      }
    }
    ApplyRegisters(s, cs, i);
  }

  /**
   * Every accepted logger key decides `ShouldLog` for its own name, when the name was
   * not registered before: a message passes exactly when the configured level is not
   * `Disabled` and is at most the message's level.
   */
  lemma ConfiguredLoggerGates(s: LoggerState, cfg: Config, keys: seq<string>, i: nat, level: LogLevel)
    requires LoggerKeys(keys) && i < |keys| && ValidState(s)
    requires LoggerFromConfig(cfg, keys[i]).LoggerAccepted? && LoggerFromConfig(cfg, keys[i]).name !in s.registry
    ensures var r := LoadLoggers(s, cfg, keys); var c := LoggerFromConfig(cfg, keys[i]);
      ShouldLog(r.registry, r.lowest, c.name, level) <==> c.level != LOG_LEVEL_DISABLED && c.level <= level
  {
    LoadLoggersRegisters(s, cfg, keys, i);
    LoadLoggersFacts(s, cfg, keys);
    var r := LoadLoggers(s, cfg, keys);
    ShortcutIsSound(r.registry, r.lowest, LoggerFromConfig(cfg, keys[i]).name, level);
  }

  /** What each logger key is made into, in order. */
  function LoggerConfigs(cfg: Config, keys: seq<string>): (cs: seq<LoggerConfig>)
    requires LoggerKeys(keys)
    ensures |cs| == |keys|
    ensures forall i :: 0 <= i < |keys| ==> cs[i] == LoggerFromConfig(cfg, keys[i])
  {
    seq(|keys|, i requires 0 <= i < |keys| => LoggerFromConfig(cfg, keys[i]))
  }

  /** The names of the accepted loggers among `cs`. */
  function RegisteredNames(cs: seq<LoggerConfig>): set<string>
    decreases |cs|
  {
    if cs == [] then {}
    else RegisteredNames(cs[..|cs| - 1]) + (if cs[|cs| - 1].LoggerAccepted? then {cs[|cs| - 1].name} else {})
  }

  lemma {:induction false} RegisteredNamesIff(cs: seq<LoggerConfig>, n: string)
    ensures n in RegisteredNames(cs) <==> exists i :: 0 <= i < |cs| && cs[i].LoggerAccepted? && cs[i].name == n
    decreases |cs|
  {
    if cs != [] {
      var init := cs[..|cs| - 1];
      RegisteredNamesIff(init, n);
      if n in RegisteredNames(init) {
        var i :| 0 <= i < |init| && init[i].LoggerAccepted? && init[i].name == n;
        assert cs[i] == init[i];
      } else if exists i :: 0 <= i < |cs| && cs[i].LoggerAccepted? && cs[i].name == n {
        var i :| 0 <= i < |cs| && cs[i].LoggerAccepted? && cs[i].name == n;
        if i < |init| {
          assert init[i] == cs[i];
        }
      }
    }
  }

  /** The names the logger keys register, in any order. */
  function AcceptedNames(cfg: Config, keys: seq<string>): set<string>
    requires LoggerKeys(keys)
  {
    RegisteredNames(LoggerConfigs(cfg, keys))
  }

  /** One more key adds the name it registers, if any, and lowers the level to its own. */
  lemma LoggerKeysSnoc(lowest: LogLevel, cfg: Config, keys: seq<string>, i: nat)
    requires LoggerKeys(keys) && i < |keys|
    ensures LoggerKeys(keys[..i]) && LoggerKeys(keys[..i + 1])
    ensures AcceptedNames(cfg, keys[..i + 1]) == AcceptedNames(cfg, keys[..i]) + AcceptedName(cfg, keys[i])
    ensures Lowered(lowest, cfg, keys[..i + 1]) == LowerBy(Lowered(lowest, cfg, keys[..i]), cfg, keys[i])
  {
    var cs := LoggerConfigs(cfg, keys[..i + 1]);
    assert cs[..i] == LoggerConfigs(cfg, keys[..i]);
    assert cs[i] == LoggerFromConfig(cfg, keys[i]);
  }

  /** A name is registered by the logger keys exactly when some key is accepted under that name. */
  lemma AcceptedNamesIff(cfg: Config, keys: seq<string>, n: string)
    requires LoggerKeys(keys)
    ensures n in AcceptedNames(cfg, keys) <==>
      exists i :: 0 <= i < |keys| && LoggerFromConfig(cfg, keys[i]).LoggerAccepted? && LoggerFromConfig(cfg, keys[i]).name == n
  {
    var cs := LoggerConfigs(cfg, keys);
    RegisteredNamesIff(cs, n);
  }

  /** The sink list after the sink keys, in order, or nothing once one aborts. */
  function LoadSinks(m: map<string, Option<Sink>>, cfg: Config, keys: seq<string>, logsDir: string): Option<map<string, Option<Sink>>>
    requires SinkKeys(keys)
    decreases |keys|
  {
    if keys == [] then Some(m)
    else match SinkFromConfig(cfg, keys[0], logsDir)
      case SinkAborted => None
      case SinkSkipped => LoadSinks(m, cfg, keys[1..], logsDir)
      case SinkBuilt(name, sink) => LoadSinks(AddSinkTo(m, name, sink), cfg, keys[1..], logsDir)
  }

  /** One step of `LoadSinks` from position `i` of the keys. */
  lemma LoadSinksStep(m: map<string, Option<Sink>>, cfg: Config, keys: seq<string>, i: nat, logsDir: string)
    requires i < |keys| && SinkKeys(keys[i..])
    ensures PREFIX_SINK <= keys[i] && SinkKeys(keys[i + 1..])
    ensures LoadSinks(m, cfg, keys[i..], logsDir) == match SinkFromConfig(cfg, keys[i], logsDir)
      case SinkAborted => None
      case SinkSkipped => LoadSinks(m, cfg, keys[i + 1..], logsDir)
      case SinkBuilt(name, sink) => LoadSinks(AddSinkTo(m, name, sink), cfg, keys[i + 1..], logsDir)
  {
    assert keys[i..][0] == keys[i] && keys[i..][1..] == keys[i + 1..];
  }

  /** Loading aborts exactly when one of the sink keys aborts. */
  lemma {:induction false} LoadSinksAbortsIff(m: map<string, Option<Sink>>, cfg: Config, keys: seq<string>, logsDir: string)
    requires SinkKeys(keys)
    ensures LoadSinks(m, cfg, keys, logsDir).None? <==>
      exists i :: 0 <= i < |keys| && SinkFromConfig(cfg, keys[i], logsDir).SinkAborted?
    decreases |keys|
  {
    if keys != [] {
      var rest := keys[1..];
      assert SinkKeys(rest) by {
        forall i | 0 <= i < |rest| ensures PREFIX_SINK <= rest[i] {
          assert rest[i] == keys[i + 1];
        }
      }
      var c := SinkFromConfig(cfg, keys[0], logsDir);
      var next := if c.SinkBuilt? then AddSinkTo(m, c.name, c.sink) else m;
      assert LoadSinks(m, cfg, keys, logsDir) == if c.SinkAborted? then None else LoadSinks(next, cfg, rest, logsDir);
      LoadSinksAbortsIff(next, cfg, rest, logsDir);
      if exists i :: 0 <= i < |keys| && SinkFromConfig(cfg, keys[i], logsDir).SinkAborted? {
        var i :| 0 <= i < |keys| && SinkFromConfig(cfg, keys[i], logsDir).SinkAborted?;
        if i > 0 {
          assert rest[i - 1] == keys[i];
        }
      }
      if exists j :: 0 <= j < |rest| && SinkFromConfig(cfg, rest[j], logsDir).SinkAborted? {
        var j :| 0 <= j < |rest| && SinkFromConfig(cfg, rest[j], logsDir).SinkAborted?;
        assert keys[j + 1] == rest[j];
      }
    }
  }

  // ---------------------------------------------------------------------------
  // The `Log` singleton

  class Log {
    /** The lowest level of any configured logger: the shortcut of `ShouldLog`. */
    var lowestLogLevel: LogLevel
    var logsDir: string
    /** `_sinkList`: sinks by name; an entry whose sink has been handed out holds nothing. */
    var sinkList: map<string, Option<Sink>>
    /** The spdlog registry the loggers are registered in. */
    var registry: Registry

    /** The fields the logger keys are read into. */
    function State(): LoggerState
      reads this
    {
      LoggerState(lowestLogLevel, sinkList, registry)
    }

    /** Every logger is registered under its own name, at a valid level no lower than `lowestLogLevel`. */
    predicate Valid()
      reads this
    {
      ValidState(State())
    }

    /** `Log::Log`: calls `Clear`. */
    constructor()
      ensures Valid()
      ensures lowestLogLevel == LOG_LEVEL_CRITICAL && logsDir == "" && sinkList == map[] && registry == map[]
    {
      lowestLogLevel := LOG_LEVEL_CRITICAL;
      logsDir := "";
      sinkList := map[];
      registry := map[];
    }

    /** `Clear`: drops every logger (`spdlog::shutdown`) and every sink. */
    method Clear()
      modifies this
      ensures registry == map[] && sinkList == map[]
      ensures lowestLogLevel == old(lowestLogLevel) && logsDir == old(logsDir)
      ensures Valid()
    {
      registry := map[];
      sinkList := map[];
    }

    /** `InitLogsDir`: reads `LogsDir` and appends `/` unless it is empty or already ends in a separator. */
    method InitLogsDir(cfg: Config)
      modifies this
      ensures logsDir == NormalizeLogsDir(GetOption(cfg, "LogsDir", ""))
      ensures lowestLogLevel == old(lowestLogLevel) && sinkList == old(sinkList) && registry == old(registry)
    {
      logsDir := GetOption(cfg, "LogsDir", "");
      if logsDir != "" {
        if logsDir[|logsDir| - 1] != '/' && logsDir[|logsDir| - 1] != '\\' {
          logsDir := logsDir + "/";
        }
      }
    }

    /** `AddSink`: a name already in the list is skipped, so no sink is ever replaced. */
    method AddSink(sinkName: string, sink: Sink)
      modifies this
      ensures sinkList == AddSinkTo(old(sinkList), sinkName, sink)
      ensures lowestLogLevel == old(lowestLogLevel) && logsDir == old(logsDir) && registry == old(registry)
    {
      if sinkName in sinkList {
        return;
      }
      sinkList := sinkList[sinkName := Some(sink)];
    }

    /** `GetSink`: nothing for an unknown name; otherwise the sink, moved out of its entry. */
    method GetSink(sinkName: string) returns (sink: Option<Sink>)
      modifies this
      ensures (if sink.Some? then [sink.value] else []) == TakeSink(old(sinkList), sinkName).sinks
      ensures sinkList == TakeSink(old(sinkList), sinkName).remaining
      ensures lowestLogLevel == old(lowestLogLevel) && logsDir == old(logsDir) && registry == old(registry)
    {
      if sinkName !in sinkList {
        return None;
      }
      sink := sinkList[sinkName];
      sinkList := sinkList[sinkName := None];
    }

    /** `CreateLoggerFromConfig`: the branches of `CreateLogger`, run on the fields. */
    method CreateLoggerFromConfig(cfg: Config, configLoggerName: string)
      requires configLoggerName == "" || |configLoggerName| >= PREFIX_LOGGER_LENGTH
      modifies this
      ensures State() == CreateLogger(old(State()), cfg, configLoggerName)
      ensures logsDir == old(logsDir)
    {
      if configLoggerName == "" {
        return;
      }
      var options := GetOption(cfg, configLoggerName, "");
      var loggerName := configLoggerName[PREFIX_LOGGER_LENGTH..];
      if options == "" {
        return;
      }
      var tokens := Tokenize(options, ',', true);
      if |tokens| == 0 || |tokens| < LOGGER_OPTION_MAX {
        return;
      }
      var level := ParseLevel(GetPositionOptions(options, LOGGER_OPTION_LEVEL, ""));
      if level >= LOG_LEVEL_MAX {
        return;
      }
      if level < lowestLogLevel {
        lowestLogLevel := level;
      }

      var sinksName := Tokenize(GetPositionOptions(options, LOGGER_OPTION_SINK_NAME, ""), ' ', false);
      var sinks := CollectSinks(sinksName);

      if loggerName !in registry {
        registry := registry[loggerName := Logger(loggerName, level, sinks)];
      }
    }

    /** The loop of `CreateLoggerFromConfig` over the sink names: `GetSink` for each, keeping what it returns. */
    method CollectSinks(sinksName: seq<string>) returns (sinks: seq<Sink>)
      modifies this
      ensures Handout(sinks, sinkList) == TakeSinks(old(sinkList), sinksName)
      ensures lowestLogLevel == old(lowestLogLevel) && logsDir == old(logsDir) && registry == old(registry)
    {
      sinks := [];
      var i := 0;
      while i < |sinksName|
        invariant 0 <= i <= |sinksName|
        invariant TakeSinks(old(sinkList), sinksName) == Handout(sinks + TakeSinks(sinkList, sinksName[i..]).sinks, TakeSinks(sinkList, sinksName[i..]).remaining)
        invariant lowestLogLevel == old(lowestLogLevel) && logsDir == old(logsDir) && registry == old(registry)
      {
        ghost var before := sinkList;
        var loggerSink := GetSink(sinksName[i]);
        CollectStep(old(sinkList), before, sinkList, sinksName, i, sinks, if loggerSink.Some? then [loggerSink.value] else []);
        i := i + 1;
        if loggerSink.None? {
          continue;
        }
        sinks := sinks + [loggerSink.value];
      }
      assert sinksName[i..] == [];
      assert sinks + [] == sinks;
    }

    /**
     * `CreateSinksFromConfig`: validates the key's option and adds the sink it describes;
     * `aborted` stands for the `ABORT` that ends the process.
     */
    method CreateSinksFromConfig(cfg: Config, loggerSinkName: string) returns (aborted: bool)
      requires loggerSinkName == "" || |loggerSinkName| >= PREFIX_SINK_LENGTH
      modifies this
      ensures aborted <==> SinkFromConfig(cfg, loggerSinkName, old(logsDir)).SinkAborted?
      ensures match SinkFromConfig(cfg, loggerSinkName, old(logsDir))
        case SinkBuilt(name, sink) => sinkList == AddSinkTo(old(sinkList), name, sink)
        case _ => sinkList == old(sinkList)
      ensures lowestLogLevel == old(lowestLogLevel) && logsDir == old(logsDir) && registry == old(registry)
    {
      aborted := false;
      if loggerSinkName == "" {
        return;
      }
      var options := GetOption(cfg, loggerSinkName, "");
      var sinkName := loggerSinkName[PREFIX_SINK_LENGTH..];
      if options == "" {
        return;
      }
      var tokens := Tokenize(options, ',', true);
      if |tokens| < SINK_OPTION_PATTERN + 1 || |tokens| > SINK_OPTION_MAX {
        return;
      }
      var channelType := StringToUint8(GetPositionOptions(options, SINK_OPTION_TYPE, ""));
      if channelType.None? || channelType.value >= SINK_TYPE_MAX {
        return;
      }
      var level := ParseLevel(GetPositionOptions(options, SINK_OPTION_LEVEL, ""));
      if level >= LOG_LEVEL_MAX {
        return;
      }
      var pattern := GetPositionOptions(options, SINK_OPTION_PATTERN, "");
      if pattern == "" {
        return;
      }

      if channelType.value == SINK_TYPE_CONSOLE {
        var colors := ConsoleColors(GetPositionOptions(options, SINK_OPTION_1, ""));
        AddSink(sinkName, ConsoleSink(level, pattern, colors));
      } else if channelType.value == SINK_TYPE_FILE {
        if |tokens| < SINK_OPTION_1 + 1 {
          return true;
        }
        var fileName := GetPositionOptions(options, SINK_OPTION_1, "");
        var rotateOnOpen := StringToBool(GetPositionOptions(options, SINK_OPTION_2, ""));
        if rotateOnOpen.None? {
          return true;
        }
        var maxFilesSize := StringToUint64(GetPositionOptions(options, SINK_OPTION_3, ""));
        if maxFilesSize.None? {
          return true;
        }
        var maxFiles := StringToUint64(GetPositionOptions(options, SINK_OPTION_4, ""));
        if maxFiles.None? {
          return true;
        }
        AddSink(sinkName, FileSink(level, pattern, logsDir + fileName, MegabytesToBytes(maxFilesSize.value),
                                   maxFiles.value, rotateOnOpen.value));
      } else {
        return true;
      }
    }

    /** `ReadSinksFromConfig`: every `Sink.*` key in turn, until one aborts. */
    method ReadSinksFromConfig(cfg: Config, keys: seq<string>) returns (aborted: bool)
      requires SinkKeys(keys)
      modifies this
      ensures aborted <==> LoadSinks(old(sinkList), cfg, keys, logsDir).None?
      ensures !aborted ==> Some(sinkList) == LoadSinks(old(sinkList), cfg, keys, logsDir)
      ensures lowestLogLevel == old(lowestLogLevel) && logsDir == old(logsDir) && registry == old(registry)
    {
      aborted := false;
      if keys == [] {
        return;
      }
      var i := 0;
      while i < |keys|
        invariant 0 <= i <= |keys|
        invariant SinkKeys(keys[i..])
        invariant LoadSinks(old(sinkList), cfg, keys, logsDir) == LoadSinks(sinkList, cfg, keys[i..], logsDir)
        invariant lowestLogLevel == old(lowestLogLevel) && logsDir == old(logsDir) && registry == old(registry)
      {
        LoadSinksStep(sinkList, cfg, keys, i, logsDir);
        aborted := CreateSinksFromConfig(cfg, keys[i]);
        if aborted {
          return;
        }
        i := i + 1;
      }
      assert keys[i..] == [];
    }

    /** `ReadLoggersFromConfig`: every `Logger.*` key in turn. */
    method ReadLoggersFromConfig(cfg: Config, keys: seq<string>)
      requires LoggerKeys(keys)
      modifies this
      ensures State() == LoadLoggers(old(State()), cfg, keys)
      ensures logsDir == old(logsDir)
      ensures lowestLogLevel == Lowered(old(lowestLogLevel), cfg, keys)
      ensures registry.Keys == old(registry).Keys + AcceptedNames(cfg, keys)
      ensures forall n :: n in old(registry) ==> registry[n] == old(registry)[n]
      ensures old(Valid()) ==> Valid()
    {
      LoadLoggersFacts(State(), cfg, keys);
      if keys == [] {
        assert keys[..0] == keys;
        return;
      }
      var i := 0;
      while i < |keys|
        invariant 0 <= i <= |keys|
        invariant LoggerKeys(keys[..i])
        invariant State() == LoadLoggers(old(State()), cfg, keys[..i])
        invariant logsDir == old(logsDir)
      {
        LoadLoggersSnoc(old(State()), cfg, keys, i);
        CreateLoggerFromConfig(cfg, keys[i]);
        i := i + 1;
      }
      assert keys[..i] == keys;
    }

    /**
     * `LoadFromConfig`: starts over from `Critical` with no loggers and no sinks, reads
     * the log directory, the sinks and then the loggers, and finally drops the sink list.
     * `aborted` stands for an `ABORT` while reading the sinks, which ends the process.
     */
    method LoadFromConfig(cfg: Config, sinkKeys: seq<string>, loggerKeys: seq<string>) returns (aborted: bool)
      requires SinkKeys(sinkKeys) && LoggerKeys(loggerKeys)
      modifies this
      ensures logsDir == NormalizeLogsDir(GetOption(cfg, "LogsDir", ""))
      ensures aborted <==> LoadSinks(map[], cfg, sinkKeys, logsDir).None?
      ensures !aborted ==> Valid() && sinkList == map[]
      ensures !aborted ==> lowestLogLevel == Lowered(LOG_LEVEL_CRITICAL, cfg, loggerKeys)
      ensures !aborted ==> registry.Keys == AcceptedNames(cfg, loggerKeys)
      ensures !aborted ==>
        var loaded := LoadLoggers(LoggerState(LOG_LEVEL_CRITICAL, LoadSinks(map[], cfg, sinkKeys, logsDir).value, map[]), cfg, loggerKeys);
        lowestLogLevel == loaded.lowest && registry == loaded.registry
      ensures !aborted ==> forall i, l: LogLevel :: 0 <= i < |loggerKeys| && LoggerFromConfig(cfg, loggerKeys[i]).LoggerAccepted? ==>
        (ShouldLog(registry, lowestLogLevel, LoggerFromConfig(cfg, loggerKeys[i]).name, l) <==>
          LoggerFromConfig(cfg, loggerKeys[i]).level != LOG_LEVEL_DISABLED && LoggerFromConfig(cfg, loggerKeys[i]).level <= l)
    {
      lowestLogLevel := LOG_LEVEL_CRITICAL;
      Clear();
      InitLogsDir(cfg);
      aborted := ReadSinksFromConfig(cfg, sinkKeys);
      if aborted {
        return;
      }
      ghost var start := State();
      ReadLoggersFromConfig(cfg, loggerKeys);
      forall i, l: LogLevel | 0 <= i < |loggerKeys| && LoggerFromConfig(cfg, loggerKeys[i]).LoggerAccepted?
        ensures ShouldLog(registry, lowestLogLevel, LoggerFromConfig(cfg, loggerKeys[i]).name, l) <==>
          LoggerFromConfig(cfg, loggerKeys[i]).level != LOG_LEVEL_DISABLED && LoggerFromConfig(cfg, loggerKeys[i]).level <= l
      {
        ConfiguredLoggerGates(start, cfg, loggerKeys, i, l);
      }
      sinkList := map[];
    }
  }
}
