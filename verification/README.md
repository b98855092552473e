# WarheadFix core, modelled in Dafny

WarheadFix is a small FIX gateway server. It reads a configuration file named on its
command line and sets up spdlog loggers and sinks from `Logger.*` and `Sink.*` options.
It then listens on a TCP port. On each connection it classifies every message it reads as
a Logon (`A`), a New Order Single (`D`), something else, or an invalid message, which
aborts the process. This project models the parts of the server that make decisions:

- `timer.dfy` (module `Timer`): `Warhead::Time::ToTimeString`. It splits a microsecond
  count into days, hours, minutes, seconds, milliseconds and microseconds, then renders
  them in one of three formats: short text (`1d 1h`), full text (`1 Day 1 Hour`) or
  numeric. It also covers the millisecond, second, minute and `std::chrono` wrappers,
  whose `uint64` scaling wraps around.
- `log.dfy` (module `Logging`): the `Log` singleton, as a class whose fields are:
  - the lowest configured level;
  - the log directory;
  - the sink list;
  - the spdlog registry.

  Around the class are pure functions:
  - resolving a logger through the dot hierarchy up to `root`;
  - the `ShouldLog` gate;
  - option field extraction;
  - colour names;
  - validation of logger and sink options.
- `fix_message.dfy` (module `FixMessage`): classifying FIX messages by command. The hffix
  reader is seen only as three facts about a message:
  - whether it is valid;
  - its MsgType;
  - whether reading its fields throws.
- `auth_session.dfy` (module `Server`): the branch `ReadMessage` takes, and the session's
  `SendPacket`, `ReadHandler` and `Start`. The session is a class over:
  - an open flag;
  - the outbound queue;
  - the read buffer;
  - a count of armed reads.
- `main.dfy` (module `App`): the `-c` command-line loop of `main`, the port range check,
  and the order of the start-up steps with their exit codes.
- `strings.dfy` (module `StringUtil`) and `wrappers.dfy` (module `Wrappers`): the string
  helpers the core calls, and an `Option` type.

Points where the code does less than one might expect:

- The session code keeps no authentication state and has no handler table. A Logon is
  accepted in any state, and nothing is sent in reply.
- The port check (src/app/Main.cpp:66) accepts 0 to 65535. So port 0 passes, though the
  error message at src/app/Main.cpp:68 says 1-65535.
- Some enumerations do not appear in the code shown: `LogLevel`, `LoggerOptions`,
  `SinkOptions` and `SinkType`. Their values are chosen to match how the code uses them:
  - `LogLevel` uses spdlog's order: trace 0 to critical 5, disabled 6, `Max` 7. This
    agrees with the six colours, `Max - 1`.
  - Logger fields: the level at position 0, the sink names at 1, `Max` 2.
  - Sink fields: type 0, level 1, pattern 2, options 3 to 6, `Max` 7.
  - Sink types: console 1, file 2, `Max` 3.
- The initial value of `lowestLogLevel` is set in the class declaration, which is not
  part of this model. `Log::Log` only calls `Clear`, which leaves it alone, so the model
  starts it at `Critical`, the value `LoadFromConfig` resets it to.
- `Log.h`, as shown, declares a different `LogLevel` enumeration (error to trace). The
  model does not use it.

## Model

| member | source | states |
|---|---|---|
| Timer.Split | src/common/Utilities/Timer.cpp:35-40 | the six components add up to the duration; each is below the size of the next coarser unit; the day count fits a `uint32` |
| Timer.SplitOfTotal | src/common/Utilities/Timer.cpp:35-40 | the split is the only normal breakdown: splitting the total of a normal breakdown gives it back |
| Timer.ComponentsFitUint32 | src/common/Utilities/Timer.cpp:61-79 | passing any component to the `uint32` parameter of `GetStringFormat` loses nothing |
| Timer.ToTimeString | src/common/Utilities/Timer.cpp:33-115 | the method, which visits the units one by one and saves the text at the output unit, computes `TimeString` |
| Timer.NumericSelectsLeadingUnit | src/common/Utilities/Timer.cpp:42-55 | a numeric template applies exactly when some unit from days to milliseconds is nonzero; the template then starts at the coarsest nonzero unit and lists every finer unit, with that template's separators |
| Timer.NumericBelowMillisecond | src/common/Utilities/Timer.cpp:52-55 | the microsecond template is dead, because it tests `millisecs` a second time; a numeric duration below 1 ms falls through to the text path and renders as `<n><Unknown time format>`, or as nothing unless the output unit is microseconds |
| Timer.TextUpToPrefix | src/common/Utilities/Timer.cpp:78-112 | the text saved at a coarser output unit is a prefix of the text at a finer one, and equal to it when the units in between are zero |
| Timer.PieceStartsWithCount | src/common/Utilities/Timer.cpp:61-63 | each piece starts with the decimal count |
| Timer.FullTextSingularIffOne | src/common/Utilities/Timer.cpp:70-72 | full text uses the singular suffix exactly when the count is 1 |
| Timer.TimeStringZero | src/common/Utilities/Timer.cpp:33-115 | a zero duration renders as the empty string in every format and for every output unit |
| Timer.NumericEndsInDigit | src/common/Utilities/Timer.cpp:44-53 | every numeric template ends in a digit |
| Timer.TimeStringNoTrailingSpace | src/common/Utilities/Timer.cpp:114 | no result ends in white space |
| Timer.ShortTextExample | src/common/Utilities/Timer.cpp:61-114 | 90061001001 us, up to microseconds in short text, is `1d 1h 1m 1s 1ms 1us` |
| Timer.FullTextExample | src/common/Utilities/Timer.cpp:61-114 | 180062003004 us, up to seconds in full text, is `2 Days 2 Hours 1 Minute 2 Seconds`: the finer units are cut off and 1 minute is singular |
| Timer.NumericHoursExample | src/common/Utilities/Timer.cpp:46-47 | the hours template has `::` after the hours and no separator between minutes and seconds: 3723004005 us is `1::0203:04:05` |
| Timer.ToTimeStringMilliseconds | src/common/Utilities/Timer.cpp:117-121 | renders the count times 1000, modulo 2^64 |
| Timer.ToTimeStringSeconds | src/common/Utilities/Timer.cpp:123-127 | renders the count times 10^6, modulo 2^64 |
| Timer.ToTimeStringMinutes | src/common/Utilities/Timer.cpp:129-133 | renders the count times 6*10^7, modulo 2^64 |
| Timer.Int64ToUint64 | src/common/Utilities/Timer.cpp:137 | a signed count converts unchanged when non-negative, and wraps by 2^64 when negative |
| Timer.ToTimeStringDuration | src/common/Utilities/Timer.cpp:135-138 | renders the `std::chrono` count converted to `uint64` |
| Timer.WholeSecondsHaveNoFraction | src/common/Utilities/Timer.cpp:123-127 | a second count that does not overflow has no millisecond or microsecond part, so output units finer than seconds add nothing |
| Timer.MinutesWrapExample | src/common/Utilities/Timer.cpp:129-133 | 307445734562 minutes overflows to 10448384 us, which renders as `10s` |
| Timer.NegativeCountWraps | src/common/Utilities/Timer.cpp:135-138 | a duration of -1 us is read as 2^64-1 us, the largest day count |
| StringUtil.TrimRight | src/common/Utilities/Timer.cpp:114 | the trimmed string is a prefix that does not end in white space, and everything removed is white space |
| StringUtil.Tokenize | src/common/Logging/Log.cpp:138 | no token holds the separator; with empty tokens kept, joining the tokens gives back the string; otherwise no token is empty |
| StringUtil.DecimalRoundTrip | src/common/Utilities/Timer.cpp:63 | reading back a printed number gives the number |
| Logging.GetLoggerByType | src/common/Logging/Log.cpp:37-52 | a registered type gets its own logger; unregistered `root` gets nothing |
| Logging.ResolvesToCandidate | src/common/Logging/Log.cpp:37-52 | whatever a type resolves to is the logger of the type itself, of one of its dot prefixes, or of `root` |
| Logging.ResolvesToNothingIff | src/common/Logging/Log.cpp:37-52 | a type resolves to nothing exactly when none of those names is registered |
| Logging.RootServesEveryType | src/common/Logging/Log.cpp:42-51 | with `root` registered, every type resolves |
| Logging.NearestAncestorWins | src/common/Logging/Log.cpp:45-51 | an unregistered type resolves to its longest registered dot prefix |
| Logging.ShouldLog | src/common/Logging/Log.cpp:145-161 | false below the lowest level and when nothing resolves; true only if a candidate logger is enabled at or below the level |
| Logging.ShortcutIsSound | src/common/Logging/Log.cpp:151-160 | while the lowest level is at most every logger's level, the shortcut gives the same answer as the resolved logger |
| Logging.ShouldLogMonotone | src/common/Logging/Log.cpp:159-160 | what passes at one level passes at every higher level |
| Logging.GetPositionOptions | src/common/Logging/Log.cpp:136-143 | returns the field at the position, or the default when the `uint8`-truncated field count is too small |
| Logging.PositionOfJoinedField | src/common/Logging/Log.cpp:136-143 | each field of a comma-joined option is found again at its position |
| Logging.NormalizeLogsDir | src/common/Logging/Log.cpp:98-105 | empty stays empty; otherwise the result ends in `/` or `\`, and `/` is appended only when needed |
| Logging.NormalizeLogsDirIdempotent | src/common/Logging/Log.cpp:98-105 | normalising twice is normalising once |
| Logging.ColorCodeIgnoresCase | src/common/Logging/Log.cpp:380-418 | names equal up to case select the same colour |
| Logging.ColorNameRoundTrip | src/common/Logging/Log.cpp:380-418 | every colour is selected by its own name |
| Logging.ParseLevelDecimal | src/common/Logging/Log.cpp:195 | every valid level is read back from its decimal text |
| Logging.LoggerFromConfig | src/common/Logging/Log.cpp:174-209 | an accepted logger is named by its key without `Logger.`, has a level below `Max`, and has non-empty sink names without spaces |
| Logging.LoggerAcceptedIff | src/common/Logging/Log.cpp:176-200 | accepted exactly when all of these hold: the key is non-empty; the option is present and non-empty; it has two or more fields whose count is not a multiple of 256; the first field is a level below `Max` |
| Logging.LoggerFromLevelAndSinks | src/common/Logging/Log.cpp:174-209 | `<level>,<sinks>` gives the logger at that level, with those sinks |
| Logging.MegabytesToBytes | src/common/Logging/Log.cpp:332 | megabytes times 1048576, modulo 2^64 |
| Logging.ConsoleColors | src/common/Logging/Log.cpp:284-297 | colours are set exactly when the colour option is non-empty and names six colours; the i-th colour is the code of the i-th name |
| Logging.SinkFromConfig | src/common/Logging/Log.cpp:232-345 | a built sink is named by its key without `Sink.`, has a valid level and a non-empty pattern, and a file sink's path starts with the log directory |
| Logging.SinkSkippedIff | src/common/Logging/Log.cpp:234-274 | skipped exactly when the key or option is empty or the fields fail validation; a built sink is a console sink exactly when its type is 1 |
| Logging.SinkAbortedIff | src/common/Logging/Log.cpp:232-345 | aborts exactly when the fields are valid and either the type is 0, or it is a file sink whose rotation, size or count field is missing or does not read; a valid console sink is always built |
| Logging.SinkTypeZeroAborts | src/common/Logging/Log.cpp:253-344 | type 0 passes the range check and then aborts |
| Logging.FileSinkWithoutNameAborts | src/common/Logging/Log.cpp:309-310 | a file sink with three fields aborts |
| Logging.FileSinkWithoutRotationAborts | src/common/Logging/Log.cpp:313-319 | a file sink with four fields aborts, because the missing rotation field is not a boolean |
| Logging.AddSinkTo | src/common/Logging/Log.cpp:356-366 | adds the name if it is new and never replaces an existing entry |
| Logging.TakeSink | src/common/Logging/Log.cpp:368-378 | hands out the stored sink and leaves an empty entry; an unknown name gives nothing and changes nothing |
| Logging.TakeSinks | src/common/Logging/Log.cpp:209-216 | every named entry is emptied and the others are kept; each sink handed out was stored under one of the names |
| Logging.TakeSinksHandsOutStored | src/common/Logging/Log.cpp:209-216 | the sinks handed out are exactly the stored sinks of the names, in order of first mention; so every named entry holding a sink hands it out |
| Logging.TakeSinksOnce | src/common/Logging/Log.cpp:209-216 | asking again for the same names hands out nothing |
| Logging.AddAfterTakeKeepsEmpty | src/common/Logging/Log.cpp:356-378 | a name whose sink was handed out is never given a new one |
| Logging.LowerBy | src/common/Logging/Log.cpp:202-203 | the lowest level only decreases, and only to an accepted logger's level |
| Logging.LoweredIsMinimum | src/common/Logging/Log.cpp:116-117 | after all logger keys, the lowest level is the minimum of the start level and every accepted level |
| Logging.CreateLogger | src/common/Logging/Log.cpp:174-230 | one logger key lowers the level as `LowerBy` says and adds exactly the name it is accepted under; a new name gets the logger at the key's level holding the sinks `TakeSinks` hands out, and the sink list becomes what `TakeSinks` leaves; loggers already registered are kept; a rejected key changes nothing; the state stays valid |
| Logging.LoadLoggersFacts | src/common/Logging/Log.cpp:107-121 | after all logger keys, the lowest level is `Lowered`, the registry holds the earlier names plus exactly the accepted ones, earlier loggers are kept, and the state stays valid |
| Logging.LoadLoggersRegisters | src/common/Logging/Log.cpp:107-121 | an accepted key whose name was not registered before leaves that name registered at the key's level; at its first occurrence the logger holds exactly the sinks it took at its turn |
| Logging.ConfiguredLoggerGates | src/common/Logging/Log.cpp:107-161 | after all logger keys, `ShouldLog` for an accepted logger's name passes a message exactly when the configured level is not `Disabled` and at most the message's level |
| Logging.AcceptedNamesIff | src/common/Logging/Log.cpp:107-121 | a name is registered by the logger keys exactly when some key is accepted under that name |
| Logging.LoadSinksAbortsIff | src/common/Logging/Log.cpp:132-133 | reading the sinks aborts exactly when one sink key aborts |
| Logging.Log.constructor | src/common/Logging/Log.cpp:55-58 | no loggers and no sinks, as `Clear` leaves them; the lowest level starts at `Critical` (see the note on `lowestLogLevel` above) |
| Logging.Log.Clear | src/common/Logging/Log.cpp:71-78 | drops every logger and sink, and nothing else |
| Logging.Log.InitLogsDir | src/common/Logging/Log.cpp:98-105 | the log directory is the normalised `LogsDir` option |
| Logging.Log.AddSink | src/common/Logging/Log.cpp:356-366 | the sink list becomes `AddSinkTo` of the old one |
| Logging.Log.GetSink | src/common/Logging/Log.cpp:368-378 | returns what `TakeSink` hands out and leaves what it leaves |
| Logging.Log.CollectSinks | src/common/Logging/Log.cpp:205-216 | the loop over sink names computes `TakeSinks` |
| Logging.Log.CreateLoggerFromConfig | src/common/Logging/Log.cpp:174-230 | the level, sink list and registry become `CreateLogger` of the old ones: a rejected key changes nothing; an accepted one lowers the level, takes its sinks, and registers the logger unless its name is taken |
| Logging.Log.CreateSinksFromConfig | src/common/Logging/Log.cpp:232-345 | aborts exactly when `SinkFromConfig` aborts; adds a built sink; otherwise changes nothing |
| Logging.Log.ReadSinksFromConfig | src/common/Logging/Log.cpp:123-134 | the sink list becomes `LoadSinks` of the keys, and aborts exactly when that does |
| Logging.Log.ReadLoggersFromConfig | src/common/Logging/Log.cpp:107-121 | the loop computes `LoadLoggers` of the keys: existing loggers are kept, every accepted name is registered and nothing else is, the lowest level is `Lowered`, and a valid state stays valid |
| Logging.Log.LoadFromConfig | src/common/Logging/Log.cpp:85-96 | starts from `Critical` with nothing registered; aborts exactly when a sink aborts; otherwise the level and registry are `LoadLoggers` from `Critical`, nothing registered and the loaded sinks; the registry's names are exactly the accepted ones; `ShouldLog` for each accepted logger answers by its configured level; and the sink list is empty |
| FixMessage.GetCommand | src/shared/FixMessage/FixMessage.cpp:240-251 | a valid message's type, and the empty string for an invalid one |
| FixMessage.IsValidCommand | src/shared/FixMessage/FixMessage.cpp:227-238 | true exactly when the message is valid and of the given type |
| FixMessage.ValidCommandIsCommand | src/shared/FixMessage/FixMessage.cpp:227-251 | a valid command is what `GetCommand` reports, and the converse holds for a non-empty command |
| FixMessage.EmptyCommandIsNotValid | src/shared/FixMessage/FixMessage.cpp:247-250 | an invalid message reports the empty command, yet it is not a valid empty command |
| FixMessage.IsReadLogonMessage | src/shared/FixMessage/FixMessage.cpp:36-97 | true only for a valid Logon; for a valid Logon, true exactly when its fields can be read |
| FixMessage.IsReadNewOrderSingleMessage | src/shared/FixMessage/FixMessage.cpp:99-154 | true only for a valid New Order Single; for one, true exactly when its fields can be read |
| FixMessage.LogonAndOrderExclusive | src/shared/FixMessage/FixMessage.cpp:56-123 | no message is read as both |
| Server.ReadMessage | src/app/Server/AuthSession.cpp:28-105 | aborts exactly for an invalid message; takes the Logon branch exactly for a valid `A`, the New Order Single branch exactly for a valid `D`, and nothing else otherwise |
| Server.BranchIgnoresFieldErrors | src/app/Server/AuthSession.cpp:41-101 | a field-reading error, caught and logged, does not change the branch taken |
| Server.Enqueue | src/app/Server/AuthSession.cpp:140-157 | on an open socket a non-empty packet is appended at the end; otherwise the queue is unchanged |
| Server.EnqueueAllInOrder | src/app/Server/AuthSession.cpp:140-157 | sending several packets queues exactly the non-empty ones, in order, and only on an open socket |
| Server.AuthSession.constructor | src/app/Server/AuthSession.h:26-42 | a fresh session has an empty queue and buffer, and no reads armed |
| Server.AuthSession.Start | src/app/Server/AuthSession.cpp:107-113 | arms one read |
| Server.AuthSession.SendPacket | src/app/Server/AuthSession.cpp:140-157 | the queue becomes `Enqueue` of the old queue, and nothing else changes |
| Server.AuthSession.ReadHandler | src/app/Server/AuthSession.cpp:128-138 | handles the buffer with `ReadMessage`; unless that aborts, empties the buffer and arms the next read |
| App.ParseArguments | src/app/Main.cpp:32-49 | the loop computes `SelectConfig` of the arguments after the program name, starting from the default file |
| App.NoFlagKeepsDefault | src/app/Main.cpp:32-49 | without `-c` the default file is used |
| App.SelectConfigAppend | src/app/Main.cpp:35-49 | the arguments can be read in two parts, the second part starting from what the first chose |
| App.LastFlagWins | src/app/Main.cpp:37-45 | the last `-c` chooses the file |
| App.TrailingFlagFails | src/app/Main.cpp:39-43 | a `-c` with nothing after it fails |
| App.FlagArgumentIsVerbatim | src/app/Main.cpp:39-45 | an instance of `LastFlagWins` and `TrailingFlagFails`: `-c -c` selects the file `-c`, and `-c -c -c` lacks an argument |
| App.PortInRange | src/app/Main.cpp:66 | the check accepts exactly 0 to 65535 |
| App.Run | src/app/Main.cpp:29-88 | aborts exactly when the command line and configuration load succeed and `sLog->Initialize` aborts; exits 0 exactly when all steps succeed (command line, configuration load, logging start, the port check and starting the network, with the `ServerPort` (default 5001) and `BindIP` (default `0.0.0.0`) options); exits 1 otherwise |

## Left out

- Timer.cpp from line 140 on: the calendar and clock functions. They call the operating
  system's clocks and `strftime`.
- `StopWatch`, and the `TimeToHumanReadable` calls in the FIX field printing: they
  depend on the clock.
- The string helpers `Tokenize`, `StringTo`, `StringEqualI` and `TrimRightInPlace`, and
  the configuration manager. Their code is not part of this model:
  - the helpers get the obvious definitions in `StringUtil`;
  - the configuration is a map from option names to values;
  - `GetKeysByString` is replaced by the key list passed to the `Read*FromConfig` and
    `LoadFromConfig` methods. Those keys carry the prefix, so `substr` never throws.
- spdlog itself. Building a sink, setting its pattern and colours, and `flush_on` are
  modelled only as the values they record. A `spdlog_ex` thrown while a sink is built
  is not modelled, and the sink counts as built.
- `Log::Write`, `GetChannelsFromLogger`, `Initialize`, `instance` and the destructor.
  They only forward to spdlog or call modelled operations.
- The error messages logged on every failure path. `ABORT` is modelled as an outcome
  (`SinkAborted`, `aborted`, `Aborted`), and the state after it is not constrained.
- hffix: parsing, checksums and field iteration. The reader is an abstract value. The
  parse of a session's read buffer is a function the caller supplies.
- Reading a message's type is taken not to throw for a valid message.
- The Logon branch of `ReadMessage` dereferences the field after the last one it
  finds. Reading past the end is undefined behaviour in C++ and is not modelled.
- `FixMessage::PrepareTestMessage` and `FixMessage::instance`: they build a sample
  message with hffix's writer and the clock.
- `AuthSession::OnClose` and `Update` only log or forward to the socket base class. The
  socket's reads, writes and `MessageBuffer` copies are reduced to the queue and buffer
  fields.
- `main`'s logging, the io context's run loop and `StopNetwork`. Whether
  `sLog->Initialize` aborts is a parameter of `App.Run`; what it does is modelled by
  `Logging.Log.LoadFromConfig`. The outside world is passed to `App.Run`
  as parameters.
- Concurrency between sessions, sockets and io contexts.
