# Remote logger: connection registry and port selection

A model of the WebSocket++ `remote_logger` example program, a telemetry
server that keeps the set of open client connections and broadcasts a text
message to all of them once a second.

- `registry.dfy` (module `Registry`): the connection set `m_connections`, a
  `std::set<connection_ptr>`, as a strictly ascending `seq<Conn>`. That is the
  set's in-order traversal. `SetInsert` and `SetErase` are `std::set::insert`
  and `std::set::erase` by key. The module also replays a history of open and
  close events and characterises who is a member afterwards.
- `remote_logger.dfy` (module `RemoteLogger`): the class
  `LoggerServerHandler` with the fields `connections` and `sent`, and the
  methods `OnOpen`, `OnClose` and `Broadcast`. `Broadcast` is the
  `const_iterator` loop of the source. Each `send(msg, TEXT)` is recorded as a
  `Delivery` appended to the `sent` log. The class `Logger` holds the port and
  the handler; `Log` delegates to `Broadcast`. A usage example that is not
  part of the source, the method `ChurnBetweenBroadcasts` with its helpers
  `OpenThreeAndBroadcast` and the lemma `EraseMiddle` (one three-element
  case), shows what callers can prove from these contracts.
- `port_selection.dfy` (module `PortSelection`): the argument handling at the
  top of `main`. `Atoi` covers the well-defined cases of `atoi` in section
  7.22.1.2 of ISO C11 (through `strtol`, section 7.22.1.4): leading white space
  as `isspace` defines it in the "C" locale, an optional sign, then decimal
  digits, and 0 when no digit follows. `ToUnsignedShort` reduces modulo 65536,
  as section 6.3.1.3 of ISO C11 prescribes for a conversion to an unsigned type.
  `SelectPort` yields `Listen(port)` or `Exit(1)`.

Connection handles are modelled as integers, ordered by the fixed strict
order that `operator<` on `connection_ptr` defines. Each handler method is one
atomic step, which is what the handler's mutex guarantees in the source.

The connection set is a `std::set`, which is ordered, so a broadcast visits the
members in ascending key order. `broadcast` holds the mutex for the whole send
loop (remote_logger.cpp lines 57-62); that makes no difference once each method
is one atomic step.

## Model

| member | source | states |
|---|---|---|
| `Registry.SetInsert` | examples/remote_logger/remote_logger.cpp:44-47 | the result is strictly ascending, holds exactly the old members plus `c`, is the old set when `c` was a member, and is one longer otherwise |
| `Registry.SetErase` | examples/remote_logger/remote_logger.cpp:50-53 | the result is strictly ascending, holds exactly the old members other than `c`, is the old set when `c` was not a member, and is one shorter otherwise |
| `Registry.AscendingUnique` | examples/remote_logger/remote_logger.cpp:66 | two strictly ascending sequences with the same members are equal, so the model of an ordered set is determined by its members |
| `Registry.EraseAfterInsert` | examples/remote_logger/remote_logger.cpp:44-53 | opening a connection that was absent and then closing it restores the original set |
| `Registry.InsertAfterErase` | examples/remote_logger/remote_logger.cpp:44-53 | closing a member and then opening it again restores the original set |
| `Registry.SizeIsLength` | examples/remote_logger/remote_logger.cpp:66-68 | the number of distinct members equals the length of the traversal |
| `Registry.Replay` | examples/remote_logger/remote_logger.cpp:44-53 | processing any history of open and close events keeps the set strictly ascending |
| `Registry.ReplayMembership` | examples/remote_logger/remote_logger.cpp:44-53 | after a history of events, a connection is a member exactly when the last event about it is an open, or when no event concerns it and it was a member before |
| `RemoteLogger.BroadcastSendAt` | examples/remote_logger/remote_logger.cpp:58-61 | a broadcast issues one send per member, and its k-th send goes to the k-th member with the message as a text frame |
| `RemoteLogger.BroadcastSends` | examples/remote_logger/remote_logger.cpp:58-61 | the sends the loop issues: one per element of the traversal; BroadcastSendAt, BroadcastReachesEachOnce and BroadcastInKeyOrder prove that the k-th goes to the k-th member as a text frame of the message, that each member gets exactly one and no other connection any, and that they go out in strictly ascending key order |
| `RemoteLogger.BroadcastReachesEachOnce` | examples/remote_logger/remote_logger.cpp:56-63 | a broadcast sends to every member exactly once and to no other connection, and the number of sends equals the size of the set |
| `RemoteLogger.BroadcastInKeyOrder` | examples/remote_logger/remote_logger.cpp:58-61 | the sends of one broadcast go out in strictly ascending key order, with no repeats, each carrying the message as a text frame |
| `RemoteLogger.LoggerServerHandler.constructor` | examples/remote_logger/remote_logger.cpp:81 | a new handler has no connections and has sent nothing |
| `RemoteLogger.LoggerServerHandler.OnOpen` | examples/remote_logger/remote_logger.cpp:44-47 | registers `con`: the members become the old members plus `con`, nothing changes when it was already a member, and nothing is sent |
| `RemoteLogger.LoggerServerHandler.OnClose` | examples/remote_logger/remote_logger.cpp:50-53 | deregisters `con`: the members become the old members minus `con`, nothing changes when it was not a member, and nothing is sent |
| `RemoteLogger.LoggerServerHandler.Broadcast` | examples/remote_logger/remote_logger.cpp:56-63 | leaves the connection set unchanged and appends to the send log exactly one text-frame send of `msg` per member, in key order |
| `RemoteLogger.Logger.constructor` | examples/remote_logger/remote_logger.cpp:76-78 | a new logger keeps the given port and has no handler yet |
| `RemoteLogger.Logger.StartService` | examples/remote_logger/remote_logger.cpp:80-83 | creates a fresh handler with no connections and an empty send log |
| `RemoteLogger.Logger.Log` | examples/remote_logger/remote_logger.cpp:85-87 | has exactly the effect of a broadcast of `msg` on the handler |
| `PortSelection.Atoi` | examples/remote_logger/remote_logger.cpp:119 | `atoi(argv[1])`: a result other than 0 needs a decimal digit in the argument; AtoiOfNumeral, AtoiOfSignedNumeral, AtoiSkipsSpace and AtoiWithoutDigits prove that it reads back a numeral whatever non-digit text follows, negates after `-`, ignores leading white space, and gives 0 when no digit follows the white space and the sign |
| `PortSelection.SkipSpace` | examples/remote_logger/remote_logger.cpp:119 | the rest of the argument after its leading white space does not start with white space |
| `PortSelection.SkipSpaceDropsSpaces` | examples/remote_logger/remote_logger.cpp:119 | what is skipped is a prefix made only of white space, and the rest is kept unchanged |
| `PortSelection.LeadingDigits` | examples/remote_logger/remote_logger.cpp:119 | the digits `atoi` reads are the longest prefix made of decimal digits |
| `PortSelection.AtoiOfNumeral` | examples/remote_logger/remote_logger.cpp:119 | `atoi` of a decimal numeral gives its value, whatever non-digit text follows |
| `PortSelection.AtoiOfDecimal` | examples/remote_logger/remote_logger.cpp:119 | `atoi` of a numeral standing alone gives the number it was written for |
| `PortSelection.AtoiOfSignedNumeral` | examples/remote_logger/remote_logger.cpp:119 | `atoi` of a numeral after `+` gives its value and after `-` its negation |
| `PortSelection.AtoiSkipsSpace` | examples/remote_logger/remote_logger.cpp:119 | leading white space does not change what `atoi` reads |
| `PortSelection.AtoiWithoutDigits` | examples/remote_logger/remote_logger.cpp:119 | `atoi` gives 0 when no digit follows the white space and the optional sign |
| `PortSelection.DecimalValueOfDecimal` | examples/remote_logger/remote_logger.cpp:119 | the digits of a numeral denote the number it was written for |
| `PortSelection.ToUnsignedShort` | examples/remote_logger/remote_logger.cpp:119 | the port is a 16-bit value congruent to the `atoi` result modulo 65536 |
| `PortSelection.SelectPort` | examples/remote_logger/remote_logger.cpp:116-125 | with other than exactly one argument the port is 9007; with one argument the program exits with status 1 exactly when `atoi` of it is 0 modulo 65536, and listens on that value modulo 65536 otherwise; a chosen port is never 0 |
| `PortSelection.SelectOneArgument` | examples/remote_logger/remote_logger.cpp:116-125 | with exactly one argument, the outcome depends only on the value `atoi` gives for it: exit with status 1 when it is 0 modulo 65536, otherwise listen on it modulo 65536 |
| `PortSelection.ListenOnGivenPort` | examples/remote_logger/remote_logger.cpp:116-125 | given the numeral of any port from 1 to 65535, the program listens on that port |
| `PortSelection.PortWrapsAround` | examples/remote_logger/remote_logger.cpp:119-123 | a numeral up to INT_MAX (2147483647) wraps around modulo 65536, so "65536" and every multiple of 65536 up to INT_MAX make the program exit with status 1 |
| `PortSelection.NonNumericIsError` | examples/remote_logger/remote_logger.cpp:119-123 | an empty argument, or one that starts with neither a digit, white space nor a sign, makes the program exit with status 1 |

## Left out

- The `boost::mutex` and `lock_guard` in the handler: concurrency is not modelled, and each handler method is one atomic step.
- The service thread (`startService`, `startupThread`): it is concurrency and is not modelled.
- The `server` endpoint, `listen` and the log-level settings: these are calls into the WebSocket library and network I/O.
- The real behaviour of `connection::send`: a send is recorded as an entry of the send log and always takes place. Send failures, and their isolation from the other members, are therefore not modelled.
- Exception handling and console output in `startupThread` and `main`.
- The endless `while(true)` loop in `main` that logs "hello, world!" and sleeps for a second: it is timing-driven and does not terminate.
- `RemoteLogger.Logger.constructor`: the C++ constructor leaves the handler pointer uninitialised, and `log` before `startService` is undefined behaviour; the model starts the handler as null and `Log` requires a handler, which excludes only that undefined case.
- `RemoteLogger.Logger.StartService`: the handler is held as an ordinary reference; the raw-pointer ownership it hands to the endpoint is not modelled.
- `PortSelection.Atoi`: the result is the exact integer value of the digits; values outside the range of `int` are undefined behaviour in C and are not modelled, so the port lemmas that go through whole numerals (PortWrapsAround) are stated only up to INT_MAX.
- `PortSelection.IsSpace`: white space is that of the "C" locale; other locales are not modelled.
