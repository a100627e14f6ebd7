# A verified model of dbproxy

dbproxy is a MySQL proxy with a configuration centre. This project models, in Dafny, the
parts of it whose correctness rests on invariants rather than on plumbing, and proves what
they promise. `dafny verify dfyconfig.toml` checks everything.

* **Resource pool** (`ResourcePool`, `ResourcePoolSafety`, `ResourcePoolRuns`, `LoneCalls`). Every call in
  flight (get, Put, SetCapacity, Close, the idle sweep) is a process with a program counter; one
  step is one channel operation, counter update or compare-and-swap, and any number of processes
  interleave. A ledger of tokens and resources is kept by every step. With one resize in flight
  at a time and the sweep stopped before the channel closes, no run panics; each hypothesis is
  shown to be needed by a concrete run. What a Get, a Put, a sweep and a SetCapacity leave behind
  when nothing interleaves with them is stated on the whole pool.
* **Connection pool** (`ConnectionPool`, `PoolProgress`, `PoolShutdown`, `PoolPhases`,
  `PoolReturns`, `PoolWitnesses`). The client on top of the resource pool: SetCapacity holds the
  mutex for the whole resize; Get and Put take it to read the pool's pointer; Close takes it to
  read the pointer, drains without it, and takes it again to drop the pointer. So at most one
  SetCapacity is in flight, beside any number of Closes. A token is *pinned* when it can come back
  only through a Put that has not begun: a resource with a client, or one that a Get already past
  the mutex is bound to hand out. For every state that a run reaches, exact conditions are proved
  for a SetCapacity and for a Close in flight to be able to return, and, for a Close that overlaps
  a SetCapacity, to be able to end in a panic without a further Close. Every panic of the client
  comes from such an overlap, unless SetCapacity itself takes the pool to zero or Close is called
  twice.
* **Timing wheel** (`TimeWheel`). Buckets, round counters and the key index refine a map from
  key to ticks left, over every sequence of adds, removals and ticks.
* **MySQL wire codec** (`Encoding`, `Packets`, `BinaryRow`, `RowStream`). Length-encoded
  integers and strings, packet splitting with a symbolic limit below 2^24, binary rows with
  their NULL bitmap, text rows, and row streams closed by an end-of-file packet, following the
  sections "Sending More Than 16Mb", "Protocol::LengthEncodedInteger", "Binary Protocol
  Resultset Row" and "EOF_Packet" of the MySQL Client/Server Protocol.
* **String literals** (`Utf8`, `Lexer`, `Escape`). The lazy-buffer scanner returns what an
  eager decoder returns, and undoes the escaper exactly on the texts it can.
* **Weighted round robin** (`Balancer`). The gcd search, the shuffled queue, and fairness of
  one period from any cursor.
* **Configuration centre** (`ControlPlane`). Prepare-all-then-commit-all publication under any
  failures, and data-centre promotion and resumption over every history of requests.
* **Sharding rules** (`ShardRule`, `DateRule`), **session variables** (`SessionVariables`),
  **rolling rates** (`Rates`), **result-set sorting** (`ResultsetSort`).

`Common` holds the option type and a few facts about remainders and sequences.

Conventions. Go integers are unbounded here except where a width decides the outcome
(two's-complement columns, the one-byte packet sequence, byte truncation in the escaper,
`MaxNumKey`). Random choices, clocks, network and store failures, and Go's map iteration order
are nondeterministic choices, so the results hold for all of them. Slices and maps that the
original updates in place are fields of classes, reassigned by methods.

Properties that turned out false of the code are kept as they are. Each comes with a lemma at
a concrete failing input and with the exact condition under which the property holds:

* `Escape` looks a rune up by its low byte, so some multi-byte runes do not survive; and with
  backslash escapes off nothing that had to be escaped does
  (`Escape.TruncatedRuneIsLost`, `Escape.EscapedIsLost`, `Escape.EscapeRoundTrip`).
* A signed TINY is read back unsigned (`BinaryRow.NegativeTinyIsLost`, `BinaryRow.RowRoundTrip`).
* A nil value in a text row is read back as the text NULL (`RowStream.NilIsLost`,
  `RowStream.TextRoundTrip`).
* A string length of about 2^63 or more panics (`Encoding.HugeLengthPanics`,
  `Encoding.StringPanicsIff`).
* The statistic selector overwrites the ordinary selector's cursor
  (`Balancer.StatisticCallsStarve`, `Balancer.KeepsPlaceIff`).
* The weights of master-data-centre slaves are appended to another list, so only one survives
  (`Balancer.SecondMasterDCSlaveIsLost`, `Balancer.MasterDCSharesIff`).
* Overlapping resizes, or resizing to zero without Close, can panic
  (`ResourcePoolRuns.OverlappingResizesPanic`, `ResourcePoolRuns.ZeroWithoutCloseCanPanic`,
  `ResourcePoolRuns.StepPanicsIff`). The overlap the client can produce is Close against
  SetCapacity (`PoolWitnesses.CloseAgainstShrinkPanics`, `PoolShutdown.OverlapPanicsIff`,
  `PoolShutdown.PanicsOnlyByCollision`).
* SetCapacity of the connection pool can wait for ever (`PoolWitnesses.ShrinkCanDeadlock`,
  `PoolWitnesses.GetUnderWayDeadlocks`, `PoolReturns.SetCapacityReturnsIff`), and so can Close
  (`PoolWitnesses.CloseCanDeadlock`, `PoolWitnesses.ZeroAgainstCloseDeadlocks`,
  `PoolWitnesses.SweepBlocksClose`, `PoolWitnesses.FirstCloseWaits`, `PoolReturns.CloseReturnsIff`).
* A Put can find the pool's pointer dropped while a Close still waits for the connection
  (`PoolWitnesses.TwoClosesPanic`, `PoolWitnesses.PutFailsIff`).
* A category that skips a snapshot is reported with differences that belong to other intervals
  (`Rates.SkippedSnapshot`, `Rates.ReportsRecorded`, `Rates.DifferencesIff`).
* The range rule accepts negative locations, and then slices lose tables
  (`ShardRule.NegativeLocationLosesTable`, `ShardRule.KeepsBlockIff`,
  `ShardRule.AcceptedKeepsBlocksIff`).
* Resuming a namespace that was never promoted can move it (`ControlPlane.FreshNamespaceIsMoved`,
  `ControlPlane.ResumeWithoutPromote`).

## Model

| member | source | states |
|---|---|---|
| `ResourcePoolSafety.StepKeepsLedger` | util/resource_pool.go:124-267 | conservation: every step of every call, with any number of overlapping resizes, keeps queued tokens + tokens in hands = capacity + tokens still to drain - tokens still to add, the three counters up to each call's pending update, and one owner per live resource; the only exception is a drain that reads an already closed channel |
| `ResourcePoolSafety.LocalKeeps` | util/resource_pool.go:124-267 | the local half: what one step changes in the counters, the queue and the stepping call's hands matches, call by call |
| `ResourcePoolSafety.StopWaitsForSweep` | util/resource_pool.go:110-115 | the sweep is stopped by Close alone, and only when no sweep is running |
| `ResourcePoolRuns.InitSerialInv` | util/resource_pool.go:84-104 | the pool NewResourcePool builds balances its books |
| `ResourcePoolRuns.StepKeepsSerialInv` | util/resource_pool.go:227-267 | with one resize in flight every step keeps the whole invariant, including that a resizer in its loop owns the capacity and the channel is open |
| `ResourcePoolRuns.SerialRunInv` | util/resource_pool.go:84-267 | every state of every run with serial resizes balances |
| `ResourcePoolRuns.TokensBounded` | util/resource_pool.go:205-219 | tokens in circulation fit the channel, and a closed channel leaves none |
| `ResourcePoolRuns.StepPanicsIff` | util/resource_pool.go:124-219 | with serial resizes a step panics exactly when the idle sweep sends on the closed channel; Put never finds the channel full, nothing is closed twice |
| `ResourcePoolRuns.SerialRunsNeverPanic` | util/resource_pool.go:110-267 | if moreover the pool goes to zero only through Close, which stops the sweep first, no call in any run ever panics |
| `ResourcePoolRuns.QuietCounters` | util/resource_pool.go:305-319 | with no call in flight available = queue length = capacity - inUse, and active = live queued + held |
| `ResourcePoolRuns.OwnedOnce` | util/resource_pool.go:158-219 | no resource is held by two calls, by a call and the queue, or twice by the queue; a closed one is held by nobody |
| `ResourcePoolRuns.ClosedForGood` | util/resource_pool.go:110-120 | once closed, closed in every later state, no token in any hands, and all three counters 0 when no call is in flight |
| `ResourcePoolRuns.OverlappingResizesPanic` | util/resource_pool.go:227-267 | two resizes in flight reach a state where Put finds the channel full |
| `ResourcePoolRuns.ZeroWithoutCloseCanPanic` | util/resource_pool.go:124-146 | a resize to zero that does not stop the sweep reaches a send on the closed channel |
| `LoneCalls.GetAlone` | util/resource_pool.go:158-199 | a Get that runs alone hands out the resource at the head of the queue, or a new one if the wrapper there is empty, and moves one from available to in use; if none can be made the empty wrapper goes to the end; with nothing queued nothing changes |
| `LoneCalls.PutAlone` | util/resource_pool.go:205-219 | a Put that runs alone leaves the resource last in the queue, one less in use and one more available; Put(nil) leaves an empty wrapper and one less active |
| `LoneCalls.SweepAlone` | util/resource_pool.go:124-146 | a sweep of n turns that runs alone moves the first n wrappers, in order, behind the rest, those idle too long emptied and their resources closed |
| `LoneCalls.SweepOfQuietPool` | util/resource_pool.go:124-146 | a sweep of a pool with no call in flight closes exactly the queued resources idle too long, leaves every wrapper in its place, takes the closed ones off the active count and changes nothing else |
| `LoneCalls.SweepAllOrNone` | util/resource_pool.go:124-146 | if all are idle too long no live resource stays queued, active equals in use and the queue keeps its length; if none is, the state is what it was |
| `LoneCalls.ResizeAlone` | util/resource_pool.go:227-267 | a SetCapacity that runs alone leaves a closed pool or one of that size as it is; otherwise it takes the difference off the front of the queue and closes those resources, or adds as many empty wrappers at the end, with the counters to match; zero closes the channel |
| `LoneCalls.CloseOfQuietPool` | util/resource_pool.go:110-115 | a Close of a pool with no call in flight returns only if nothing is in use; then the sweep is stopped, the channel closed, exactly the queued resources are closed and all counters are 0 |
| `LoneCalls.WaitsIff` | util/resource_pool.go:124-267 | a call under way waits if and only if, on the open channel, it receives and nothing is queued, or sends and the channel is full; a Put never waits, nor does a Get whose context expires |
| `LoneCalls.FaultsIff` | util/resource_pool.go:124-267 | a step panics if and only if it sends on the closed channel, puts into a full one, or closes the channel again, each with its own panic |
| `LoneCalls.ClosedAndStopped` | util/resource_pool.go:110-185 | a Get on a closed and empty channel fails at once; a Close waits exactly while a sweep runs |
| `ConnectionPool.ClientStepKeepsBooks` | backend/connection_pool.go:99-161 | conservation for the client: each of its steps keeps the ledger unless some drain is about to read the closed channel |
| `ConnectionPool.ClientRunBalances` | backend/connection_pool.go:99-161 | in every run of the client at most one SetCapacity is in flight, it holds the mutex, any number of Closes run beside it, and the books balance until a drain reads the closed channel |
| `ConnectionPool.ForgerHoldsMutex` | util/resource_pool.go:248-257 | only a SetCapacity above zero ever reads the closed channel while draining; a Close never does |
| `PoolProgress.DrainEnds` | util/resource_pool.go:248-257 | a drain loop with enough tokens queued ends on its own, and one above zero also does once the channel is closed |
| `PoolProgress.SweepsEnd` | util/resource_pool.go:124-146 | running sweeps can always end, whatever the other calls wait for, so a Close that waits for them goes on |
| `PoolProgress.ShrinkNeverReturns` | backend/connection_pool.go:117-161 | while more tokens are pinned than the target leaves and no Close had the mutex before, no run of any length lets the SetCapacity that holds the mutex return |
| `PoolProgress.PinnedIsInUse` | backend/connection_pool.go:117-147 | with no other call past the mutex the pinned tokens are those in use |
| `PoolShutdown.OverlapArises` | backend/connection_pool.go:99-109 | a Close that had the mutex before SetCapacity took it turns into an overlap when it exchanges the capacity |
| `PoolShutdown.HarmlessNeverPanics` | util/resource_pool.go:205-267 | if SetCapacity has nothing left to take, or more tokens are pinned than it has to take, or nobody holds or fetches a token, no continuation panics, whatever is called next but another Close |
| `PoolShutdown.OverlapPanicsIff` | util/resource_pool.go:205-267 | a Close overlapping a SetCapacity can end in a panic, no further Close being called, if and only if SetCapacity still has tokens to take, no more are pinned than that, and somebody holds a token or is fetching one |
| `PoolShutdown.PanicsOnlyByCollision` | backend/connection_pool.go:99-161 | in every run of the client a panic of the resource pool comes after an overlap that meets this condition, or after a SetCapacity to zero, with any number of Closes; with one Close so does a Put that finds the pointer dropped |
| `PoolPhases.ArrivedPhase` | backend/connection_pool.go:99-161 | every state that a run of the client reaches without a panic is in operation, drained by one Close, drained by SetCapacity(0), or closed, with the books balanced while the channel is open |
| `PoolReturns.JamNeverEnds` | backend/connection_pool.go:99-161 | once SetCapacity is jammed in its loop (more tokens pinned than it and than Close have to take, or any pinned when it takes the pool to zero), no run lets it or any Close return |
| `PoolReturns.MutexFrees` | backend/connection_pool.go:150-161 | on a pool taken to zero a SetCapacity that is not jammed can give the mutex back, wherever it stands |
| `PoolReturns.SetCapacityReturnsIff` | backend/connection_pool.go:150-161 | in every state that a run reaches, a SetCapacity at any point can return if and only if, with no Close in flight, no more tokens are pinned than its target or the channel is closed, and beside Closes, it is not jammed |
| `PoolReturns.CloseReturnsIff` | backend/connection_pool.go:99-109 | in every state that a run reaches, with any number of Closes, a Close in flight can return if and only if no SetCapacity is jammed, no sweep that it waits for is caught on the closed channel, and it does not drain pinned tokens after another Close dropped the pointer |
| `PoolWitnesses.ShrinkCanDeadlock` | backend/connection_pool.go:133-161 | a run of the client reaches a deadlock with one connection out and a resize to zero |
| `PoolWitnesses.GetUnderWayDeadlocks` | backend/connection_pool.go:117-161 | another does with nothing in use yet: a Get took the mutex just before |
| `PoolWitnesses.CloseAgainstShrinkPanics` | backend/connection_pool.go:99-161 | one connection out is enough: a run of the client reaches an overlap of SetCapacity(1) and Close from which a panic can follow |
| `PoolWitnesses.CloseCanDeadlock` | backend/connection_pool.go:99-161 | two connections out, and a run of the client reaches an overlap of SetCapacity(1) and Close from which Close can never return |
| `PoolWitnesses.ZeroAgainstCloseDeadlocks` | backend/connection_pool.go:99-161 | one connection out, and a run of the client reaches SetCapacity(0) and a Close that had the mutex before, of which neither can return |
| `PoolWitnesses.SweepBlocksClose` | util/resource_pool.go:110-115 | a Close that waits for the sweep while SetCapacity(0) closes the channel can never return |
| `PoolWitnesses.FirstCloseWaits` | backend/connection_pool.go:99-109 | after a second Close dropped the pointer the first, which waits for a connection, can never return |
| `PoolWitnesses.ZeroCapacityPanics` | backend/connection_pool.go:150-161 | SetCapacity(0) leaves the sweep running, and a run of the client without any Close reaches a send on the closed channel |
| `PoolWitnesses.PutFailsIff` | backend/connection_pool.go:99-109 | without SetCapacity, a Put can find the pointer dropped if and only if Close may be called twice |
| `PoolWitnesses.TwoClosesPanic` | backend/connection_pool.go:133-147 | the run: the second Close finds the capacity zero, drops the pointer, and the connection that the first still waits for comes back |
| `TimeWheel.SlotEncodesTicks` | util/time_wheel.go:138-150 | round and slot together encode delay/tick: round * bucketsNum + (index - currentIndex) mod bucketsNum |
| `TimeWheel.TicksMean` | util/time_wheel.go:138-150 | a delay counts for as many whole ticks as fit into it |
| `TimeWheel.FiresExactlyOnce` | util/time_wheel.go:100-136 | a task of k ticks fires at exactly one event, the (k+1)-th tick after its add, with its own callback, unless removed or replaced |
| `TimeWheel.RemovedNeverFires` | util/time_wheel.go:162-168 | a removed key does not fire until added again |
| `TimeWheel.Turned` | util/time_wheel.go:100-116 | one turn over the buckets takes one tick off every entry, starts exactly the due callbacks, and keeps the index the exact inverse of the buckets |
| `TimeWheel.Replaced` | util/time_wheel.go:127-136 | adding a key, new or present, sets its entry and keeps the inverse |
| `TimeWheel.Wheel.AddTask` | util/time_wheel.go:127-136 | the wheel after add stands for the abstract timer after add |
| `TimeWheel.Wheel.RemoveTask` | util/time_wheel.go:162-168 | the same for remove, present key or not |
| `TimeWheel.Wheel.HandleTick` | util/time_wheel.go:100-116 | the same for a tick, with the callbacks started being those due, whatever the map order |
| `TimeWheel.Wheel.Start` | util/time_wheel.go:79-93 | over every sequence of events the wheel refines the abstract timer and starts the same callbacks at the same events |
| `TimeWheel.NewTimeWheel` | util/time_wheel.go:47-71 | refuses no buckets or a tick below one second, otherwise an empty timer |
| `Encoding.LittleEndianRoundTrip` | mysql/encoding.go:144-186 | fixed-width bytes read back give the integer cut to that width |
| `Encoding.FromLittleEndianRoundTrip` | mysql/encoding.go:144-186 | any bytes are the encoding of the integer they spell |
| `Encoding.WriteLenEncInt` | mysql/encoding.go:70-98 | stores in place exactly the bytes the append form produces, nothing else changes |
| `Encoding.LenEncRoundTrip` | mysql/encoding.go:299-340 | every 64-bit length is read back wherever it stands in a packet |
| `Encoding.LenEncFirstByte` | mysql/encoding.go:101-118 | no length starts like NULL or an error; one that starts like an end-of-file packet is at least 2^24 |
| `Encoding.FirstByteDecides` | mysql/encoding.go:299-340 | the first byte alone decides: 0xfb is NULL in one byte, 0xfc, 0xfd and 0xfe announce two, three and eight more, which must be there, and any other byte, 0xff included, is the length itself |
| `Encoding.LenEncStringRoundTrip` | mysql/encoding.go:215-219 | length-encoded strings are read back wherever they stand |
| `Encoding.NullStringIff` | mysql/encoding.go:368-378 | a string read anywhere is NULL if and only if the byte there is 0xfb, and the next one is then read right after it |
| `Encoding.StringPanicsIff` | mysql/encoding.go:368-378 | reading a string panics exactly on an eight-byte length whose end passes 2^63, the signed length having wrapped |
| `Encoding.HugeLengthPanics` | mysql/encoding.go:368-378 | nine bytes that do |
| `Packets.FrameCountBounds` | mysql/conn.go:381-436 | how many frames a payload takes, exact multiples of the limit included |
| `Packets.FramesRoundTrip` | mysql/conn.go:308-361 | every payload followed by any suffix is read back whole, the suffix unread, both sequence numbers equal modulo 256 |
| `Packets.TruncatedFramesFail` | mysql/conn.go:164-361 | no proper prefix of a written payload yields a packet |
| `Packets.ReadIffWritten` | mysql/conn.go:164-361 | with the protocol's limit the reader accepts exactly what the writer sends: the bytes it takes are the frames of the payload it returns, numbered in sequence, and nothing else yields a packet |
| `Packets.Conn.WritePacket` | mysql/conn.go:381-436 | the writer's loop emits exactly the frames of the payload, with an empty frame after an exact multiple |
| `Packets.Conn.ReadOnePacket` | mysql/conn.go:308-325 | one frame or the error: short header, wrong sequence, short body |
| `Packets.Conn.ReadPacket` | mysql/conn.go:330-361 | the reader's loop returns the specified payload or error |
| `Packets.Conn.ReadEphemeralPacket` | mysql/conn.go:203-256 | the pooled-buffer reader returns what readPacket returns, and how it leaves the buffer policy |
| `Packets.Conn.WriteEphemeral` | mysql/conn.go:439-478 | an ephemeral packet is written like any other and its buffer given back |
| `Packets.Conn.WriteEOFPacket` | mysql/conn.go:621-630 | five bytes: header, warnings, flags |
| `Packets.EOFBytes` | mysql/conn.go:621-630 | the end-of-file packet byte by byte: 0xfe, warnings and flags, low bytes first |
| `BinaryRow.IntegerColumn` | mysql/encoding.go:464-583 | an integer column gives back its value if and only if the value fits the column |
| `BinaryRow.IntegerBytes` | mysql/encoding.go:464-583 | how many bytes each integer column takes, low bytes first, in two's complement |
| `BinaryRow.ColumnRoundTrip` | mysql/result.go:100-271 | the same for any column wherever it stands, and the position after it |
| `BinaryRow.MarkedIsBitmap` | mysql/result.go:550-586 | setting bit i+2 keeps the bitmap exact: that bit and no other |
| `BinaryRow.NullMarkerIsNull` | mysql/result.go:200-216 | a string column is NULL also where 0xfb stands in place of its length |
| `BinaryRow.NullRowBytes` | mysql/result.go:550-586 | the bitmap byte by byte: the first column's bit is the third, the seventh's is the first of the next byte |
| `BinaryRow.BuildsIff` | mysql/encoding.go:464-583 | a row is built if and only if no value stands in a column of type NULL and no byte string in an integer column is shorter than it; every row whose values fit is built |
| `BinaryRow.JsonIsRefused` | mysql/result.go:200-269 | a JSON value is written like a text and no reader takes it back |
| `BinaryRow.BitmapIsTight` | mysql/result.go:557 | the bitmap has as few bytes as hold two bits more than there are columns |
| `BinaryRow.BuildBinaryRow` | mysql/result.go:550-586 | builds header, exact NULL bitmap and columns; fails exactly on a column-count mismatch or a value that cannot be appended |
| `BinaryRow.ParseBinary` | mysql/result.go:100-271 | the position-advancing loop returns the specified row, error or panic |
| `BinaryRow.ColumnsRoundTrip` | mysql/result.go:100-271 | for any pair of value reader and writer that undo each other on fitting values, the columns of a marked row read back exactly when they fit |
| `BinaryRow.RowRoundTrip` | mysql/result.go:100-271 | for every column count and NULL pattern the parsed row is the built row if and only if every value fits its column |
| `BinaryRow.HeaderIsChecked` | mysql/result.go:100-104 | no row is read from a packet with another header |
| `BinaryRow.NegativeTinyIsLost` | mysql/result.go:100-271 | a TINY of -1 comes back as 255 |
| `RowStream.BuildTextRow` | mysql/result.go:489-546 | the loop emits the cells' length-encoded texts in order |
| `RowStream.ParseText` | mysql/result.go:53-97 | the loop returns the specified cells, error or panic |
| `RowStream.TextRoundTrip` | mysql/result.go:53-97 | a text row comes back as written if and only if no cell is nil |
| `RowStream.NilIsLost` | mysql/result.go:613-616 | a single nil cell comes back as the text NULL |
| `RowStream.ServerRoundTrip` | mysql/result.go:53-97 | every row comes back as a server writes it, NULL cells as 0xfb included |
| `RowStream.ReadResultRows` | backend/direct_connection.go:652-691 | the loop returns the specified rows, status and error, leaving the stream just after the end-of-file packet |
| `RowStream.StreamRoundTrip` | backend/direct_connection.go:652-695 | with or without protocol 4.1, payloads closed by an end-of-file packet are read back as exactly those payloads if and only if each is a row packet, and with the status that packet sets or the old one |
| `RowStream.TruncatedStreamFails` | backend/direct_connection.go:652-691 | a stream of rows cut short anywhere ends in a transport error, never in fewer rows |
| `RowStream.RowPacketMeans` | backend/direct_connection.go:693-695 | a packet is taken for a row if and only if it is not empty, does not start with 0xff, and does not start with 0xfe unless it is longer than five bytes |
| `RowStream.ErrorEnds` | backend/direct_connection.go:652-691 | an error packet ends the stream with an error |
| `RowStream.TextRowIsRowPacket` | backend/direct_connection.go:693-695 | no text row with a column is taken for an end-of-file or error packet |
| `RowStream.BinaryRowIsRowPacket` | backend/direct_connection.go:693-695 | neither is a binary row |
| `RowStream.TextTableRoundTrip` | backend/direct_connection.go:652-695 | end to end: rows, framing, stream and row parser give back the table of texts |
| `RowStream.ServerTableRoundTrip` | backend/direct_connection.go:652-695 | the same for any table as a server writes it, NULL cells included |
| `RowStream.BinaryTableRoundTrip` | backend/direct_connection.go:652-695 | the same for binary rows whose values fit |
| `Utf8.EncodeDecoded` | parser/lexer.go:551-559 | writing a decoded rune writes the bytes it was read from |
| `Utf8.DecodeEncoded` | parser/lexer.go:773-790 | a rune that was written is read back with its width, whatever follows it |
| `Utf8.CompleteIff` | parser/lexer.go:773-790 | a multi-byte rune is read if and only if the text begins with the encoding of a code point that is no surrogate; otherwise a byte above ASCII is one replacement character |
| `Lexer.DecodedByPosition` | parser/lexer.go:572-599 | decoding by position equals decoding the remaining text |
| `Lexer.PlainMeans` | parser/lexer.go:572-599 | a byte that is neither the quote nor an escaping backslash stands for itself |
| `Lexer.QuoteMeans` | parser/lexer.go:578-586 | two quotes in a row stand for one |
| `Lexer.CloseMeans` | parser/lexer.go:578-599 | a single quote ends the literal, and a text that ends before has no literal |
| `Lexer.EscapeMeans` | parser/lexer.go:602-627 | byte by byte: n, 0, b, Z, r and t after a backslash stand for their control characters, % and _ keep the backslash, any other byte loses it |
| `Lexer.Scanner.Peek` | parser/lexer.go:773-790 | the rune ahead and its width, an invalid byte standing for itself |
| `Lexer.Scanner.HandleEscape` | parser/lexer.go:602-627 | what the buffer gains for each escape, including the kept backslash before % and _, and a backslash at the end of the text |
| `Lexer.Scanner.ScanString` | parser/lexer.go:536-599 | the lazy-buffer scanner returns exactly what an always-buffering decoder returns and stops where it stops, for any text and both settings of NO_BACKSLASH_ESCAPES |
| `Escape.Escape` | mysql/util.go:85-99 | the index loop produces the escaped text |
| `Escape.ReadBackIff` | mysql/util.go:101-111 | the escaped text reads back as itself if and only if no multi-byte rune shares its low byte with a special character |
| `Escape.DecodesToReadBack` | parser/lexer.go:572-627 | scanning past an escaped text yields its read-back, whatever ASCII follows |
| `Escape.EscapeRoundTrip` | mysql/util.go:85-111 | for every byte string and either quote, the quoted escaped text scans back to the text and stops after the closing quote, if and only if no further quote follows and that condition holds or, with backslash escapes off, nothing had to be escaped |
| `Escape.EscapedMeans` | mysql/util.go:85-111 | byte by byte: of the ASCII characters exactly NUL, both quotes, backspace, newline, carriage return, tab, Control-Z and the backslash are escaped, by which letters; the others are copied |
| `Escape.NoControlLeft` | mysql/util.go:85-111 | escaped text holds none of these control characters, whatever bytes it was made from |
| `Escape.LikeRoundTrip` | parser/lexer.go:572-627 | every LIKE pattern, escaped wildcards included, scans back to its own bytes if and only if no further quote follows |
| `Escape.EscapedIsLost` | parser/lexer.go:572-627 | with backslash escapes off a text whose first rune is escaped is never read back, a run of backslashes included |
| `Escape.AsciiIsFaithful` | mysql/util.go:85-111 | every ASCII text meets the condition |
| `Escape.TruncatedRuneIsLost` | mysql/util.go:90 | U+0127 is escaped as a single quote |
| `Balancer.Gcd` | backend/balancer.go:25-52 | the downward search finds the greatest common divisor of positive weights |
| `Balancer.FillQueue` | backend/balancer.go:95-100 | slave i stands in the queue exactly weight_i / gcd times and nobody else does |
| `Balancer.Shuffle` | backend/balancer.go:102-112 | any random choices leave the same multiset |
| `Balancer.BuildQueue` | backend/balancer.go:86-113 | the finished queue shares by weight, for every random source |
| `Balancer.OnePeriodIsFair` | backend/balancer.go:146-166 | from any cursor one full period picks slave i exactly weight_i / gcd times |
| `Balancer.Slice.GetNextSlave` | backend/balancer.go:146-166 | the slave at the cursor, the new cursor, and the error on an empty queue |
| `Balancer.Slice.GetNextStatisticSlave` | backend/balancer.go:192-212 | the same for statistic slaves, including the write to the other cursor |
| `Balancer.Slice.GetMany` | backend/balancer.go:146-166 | k calls in a row return the slaves of k successive queue entries, across the wrap |
| `Balancer.CursorsStaySafe` | backend/balancer.go:146-212 | over every run of both selectors each read of a queue that is not empty stays inside it |
| `Balancer.RoundRobinKeepsPlace` | backend/balancer.go:146-166 | over every run without statistic calls, or with at most one statistic entry, the cursor is where the number of ordinary calls puts it |
| `Balancer.StatisticKeepsPlace` | backend/balancer.go:192-212 | the statistic cursor keeps its place in every run |
| `Balancer.KeepsPlaceIff` | backend/balancer.go:203 | the ordinary cursor keeps its place in all runs if and only if one of the two queues has at most one entry, none included |
| `Balancer.StatisticCallsStarve` | backend/balancer.go:203 | for all queue lengths, any number of rounds of a full turn of statistic calls and one ordinary call read the same queue position each time |
| `Balancer.MasterDCWeights` | backend/slice.go:207-217 | the loop leaves the ordinary slaves' weights and the last parsed weight |
| `Balancer.MasterDCSharesIff` | proxy/server/namespace.go:479-484 | parsed before the ordinary slaves, these slaves share calls by weight if and only if there is one of them |
| `Balancer.SecondMasterDCSlaveIsLost` | backend/slice.go:217 | two slaves of equal weight: the queue names the first alone |
| `ControlPlane.SwapSlices` | cc/service/service.go:252-259 | the loop exchanges, in every slice, the master and the slaves of the two centres, field by field, and leaves the rest |
| `ControlPlane.VerifyFails` | models/slice.go:35-70 | a namespace fails its checks if and only if it has no slice, a slice without name, user, host or positive capacities or with an empty slave address, or a fault in the other fields |
| `ControlPlane.ControlPlane.QueryNamespace` | cc/service/service.go:56-74 | all the named namespaces as stored, or nothing |
| `ControlPlane.ControlPlane.CallAll` | cc/service/service.go:102-118 | one phase calls listed proxies only, none twice, in any order, and stops at the first failure; success means all were called |
| `ControlPlane.ControlPlane.ModifyNamespace` | cc/service/service.go:77-121 | a commit to any proxy comes only after the verified namespace was stored and every listed proxy prepared it, in every prefix of the run; success means all committed; an update reported as failed may or may not have been applied |
| `ControlPlane.ControlPlane.PromoteDc` | cc/service/service.go:241-272 | under any failures the names up to some point are promoted and the rest untouched; success means that every named namespace outside the master centre has its two centres exchanged field by field and its flag set, duplicates included, and no other changed; every publication is of a named namespace promoted, its commits are safe, and all but a failing last one are complete |
| `ControlPlane.ControlPlane.ResumeDc` | cc/service/service.go:316-348 | the same for resuming |
| `ControlPlane.AppliedMeans` | cc/service/service.go:241-348 | field by field, what promoting and resuming do to a namespace and which they leave alone |
| `ControlPlane.PromotionVerifies` | cc/service/service.go:252-266 | a promoted namespace passes the checks of ModifyNamespace if and only if every slice has a host in the other centre |
| `ControlPlane.NeverHalfSwapped` | cc/service/service.go:241-348 | over every history of promotions and resumptions, each cut short anywhere, a stored flag differs from its first value exactly when the two centres are exchanged in all slices, master by master and slaves by slaves |
| `ControlPlane.ResumeUndoesPromote` | cc/service/service.go:316-348 | resuming undoes promoting for every namespace outside the master centre, and says exactly when the flag comes back otherwise |
| `ControlPlane.PromoteThenResume` | cc/service/service.go:241-348 | the same on the whole store |
| `ControlPlane.ResumeWithoutPromote` | cc/service/service.go:322-338 | resuming leaves a namespace as it is if and only if its flag and backup flag agree; both operations are idempotent |
| `ControlPlane.FreshNamespaceIsMoved` | models/namespace.go:55-65 | a namespace with the default flags passes the checks, was never promoted, and is moved by resuming it |
| `ShardRule.ParseNumSharding` | models/numkey.go:55-69 | one range per table, i * limit to (i + 1) * limit; a panic exactly on a negative sum |
| `ShardRule.OneRangePerKey` | models/numkey.go:46-69 | every key below tables * limit lies in exactly one range, also when the last end is MaxNumKey |
| `ShardRule.VerifyHashRuleSliceInfos` | models/shard_rule.go:151-165 | the nested loops build the owner map, for any integers; the error exactly on a count mismatch |
| `ShardRule.OwnersAreBlocks` | models/shard_rule.go:151-165 | with non-negative locations the tables are 0 .. sum and each slice owns its contiguous block |
| `ShardRule.LastBlockOwns` | models/shard_rule.go:151-165 | for any integers a table belongs to the last slice whose block holds it |
| `ShardRule.KeepsBlockIff` | models/shard_rule.go:151-165 | for any integers a slice keeps its whole block if and only if no later block overlaps it |
| `ShardRule.KeepsSizeIff` | models/shard_rule.go:151-165 | and owns as many tables as its block has, under the same condition |
| `ShardRule.TablesAreSumIff` | models/shard_rule.go:151-165 | the tables are 0 .. sum, and as many, if and only if every running sum lies between 0 and the total |
| `ShardRule.AcceptedKeepsBlocksIff` | models/shard_rule.go:54-68 | under an accepted range rule every slice keeps its block if and only if no location is negative |
| `ShardRule.NegativeLocationLosesTable` | models/shard_rule.go:54-68 | 2, -1, 3 is accepted and slice 0 loses a table |
| `ShardRule.VerifyRangeRule` | models/shard_rule.go:54-68 | panics exactly on equal counts with a negative sum; accepts exactly equal counts with every running sum between 0 and the total |
| `ShardRule.OneSlicePerKey` | models/shard_rule.go:54-68 | under an accepted rule every key goes to exactly one table and that table to exactly one slice, the last whose block holds it |
| `ShardRule.VerifyPartitionLong` | models/shard_rule.go:286-323 | accepts if and only if no count is negative, counts sum to the shard number and the count-length dot product is 1024, and then the boundaries run from 0 to 1024 by the configured lengths; panics exactly when the sum is right but a count is negative |
| `ShardRule.OneSegmentPerHash` | models/shard_rule.go:311-322 | with positive lengths every hash value falls in exactly one segment |
| `DateRule.LessIsNumeric` | models/numkey.go:156-158 | comparing the two ends as text compares them as numbers |
| `DateRule.DateMeans` | models/numkey.go:131-252 | a month is four digits and one of 01 to 12, a year is any four digits, and nothing else is either |
| `DateRule.RangeMeans` | models/numkey.go:131-252 | a text with a dash stands for the periods between its two ends, whichever is written first; one without stands for itself |
| `DateRule.MonthsBetween` | models/numkey.go:185-196 | the running year and month give consecutive months across year ends |
| `DateRule.ParseMonthRange` | models/numkey.go:131-199 | succeeds exactly on one or two valid yyyymm texts; then the result is increasing and holds exactly the months between the two ends, whichever was written first |
| `DateRule.ParseYearRange` | models/numkey.go:204-252 | the same for years |
| `DateRule.VerifyDateRule` | models/shard_rule.go:205-243 | accepts if and only if the counts agree, every text parses and the ranges follow one another; then all periods together are strictly increasing and are exactly those covered |
| `DateRule.OneSlicePerPeriod` | models/shard_rule.go:205-243 | under an accepted rule no period belongs to two slices |
| `SessionVariables.SessionVariables.Set` | mysql/variables.go:122-139 | accepts exactly supported names, quoted and in any case, with valid values, in place or as a new object |
| `SessionVariables.AllowedNames` | mysql/variables.go:27-42 | the supported names are sql_mode, sql_safe_updates and time_zone |
| `SessionVariables.QuotesDoNotCount` | mysql/variables.go:159-163 | quotes of any of the three kinds around a name do not count |
| `SessionVariables.LowerMeans` | mysql/variables.go:159-163 | each Latin capital folds to its small letter |
| `SessionVariables.DottedCapitalIsAccepted` | mysql/variables.go:159-163 | names fold as the original folds them, the dotted capital I included |
| `SessionVariables.SessionVariables.SetEqualsWith` | mysql/variables.go:76-114 | afterwards the name-to-value map equals the other session's, unused gained exactly the dropped variables with their values, changed holds exactly when the maps differed, and no object is shared |
| `SessionVariables.SessionVariables.GetUnusedAndClear` | mysql/variables.go:153-157 | hands over the unused variables and forgets them |
| `SessionVariables.AllAligned` | mysql/variables.go:94-113 | once every supported name has been visited the maps agree, and the change flag and the dropped names are right |
| `Rates.Ring.Add` | stats/ring.go:32-39 | the ring holds the last values, oldest first, after every addition |
| `Rates.Ring.Values` | stats/ring.go:42-48 | returns them in that order, across the wrap |
| `Rates.LastNAgain` | stats/ring.go:32-39 | keeping the last n after each addition keeps the last n of all |
| `Rates.Rates.Snapshot` | stats/rates.go:103-125 | after any number of snapshots every ring holds the last samples of the whole history, a new category starting from 0 |
| `Rates.Rates.GetCount` | stats/rates.go:171-194 | the countdown loop reads differences off every ring; nothing with fewer than two time stamps |
| `Rates.SeriesIsRecord` | stats/rates.go:112-125 | what is kept of any category is 0 followed by its recorded counts, snapshots it skips leaving no trace |
| `Rates.ReportsRecorded` | stats/rates.go:171-194 | whatever a category skips, the entries are the differences of adjacent recorded counts, newest first, 0 standing before the first, also after both rings wrapped |
| `Rates.DeltasAreDifferences` | stats/rates.go:171-194 | without a gap among the retained snapshots each entry is the difference of the counts at two adjacent ones, 0 before the category appeared |
| `Rates.DifferencesIff` | stats/rates.go:171-194 | for a growing counter that holds of all entries if and only if there is no such gap |
| `Rates.SkippedSnapshot` | stats/rates.go:171-194 | a category missing in the second of three snapshots is reported to have grown in the first interval |
| `ResultsetSort.CmpOrdered` | mysql/resultset_sort.go:103-150 | the comparison of values of one column is total, transitive and antisymmetric up to ties |
| `ResultsetSort.CmpMeans` | mysql/resultset_sort.go:103-150 | the sign of the comparison says which is smaller: a missing value is below every other, numbers by size, texts by the first byte that differs or, if there is none, the shorter first; zero means equal |
| `ResultsetSort.IntegerKey` | mysql/resultset_sort.go:79-100 | one key on a column of integers sorts by size, upwards or downwards as it says |
| `ResultsetSort.StrictWeakOrder` | mysql/resultset_sort.go:79-100 | the multi-key order, ascending or descending per key, is a strict weak order |
| `ResultsetSort.ComparableRows` | mysql/resultset_sort.go:79-100 | on comparable rows nothing panics, and the deciding key gives the strict weak order |
| `ResultsetSort.Sorter.Less` | mysql/resultset_sort.go:79-100 | the loop decides by the first key on which the rows differ, smaller first or, for a descending key, larger first, and panics exactly when it reaches a key with two kinds of value |
| `ResultsetSort.Sorter.Swap` | mysql/resultset_sort.go:152-159 | rows and their raw data move together and nothing is lost, also when the raw data were cleared |

## Left out

- Sockets, handshake, password hashing, the SQL grammar, HTTP and etcd clients, JSON, logging and metric export: input and output, or library calls.
- Encrypt and Decrypt are taken to undo each other and may fail; the other field checks of Namespace.Verify are one flag, because no operation here touches those fields.
- TimeWheel: whole seconds are computed exactly, while the original adds the fraction in a floating-point number, which from 2^24 seconds (about 194 days) on can round the last nanoseconds of a second up to the next one.
- BinaryRow: a packet's capacity is taken to be its length, so that a column cut short panics; and float, date, time, ENUM and SET columns, because they would add formatting cases to the same argument.
- RowStream: the decimal text of numbers and times in text rows; cells are byte strings or nil.
- Lexer: line and column tracking.
- ShardRule: 64-bit overflow of row limits and counts (a key range above MaxNumKey is excluded by hypothesis); the comma-separated lists are taken as already parsed, and the day, murmur and padding rules are not modelled.
- Balancer: weights must be positive, since the original divides by zero on a zero weight and gives negative ones no meaning; the master-data-centre selector has the body of the ordinary one and is not repeated.
- ConnectionPool: Open, SetIdleTimeout and the statistics; a call that finds the pointer dropped returns at once and is no step.
- PoolShutdown.OverlapPanicsIff: continuations in which another Close is called are not part of the condition; what a second Close does is `PoolWitnesses.PutFailsIff`.
- SessionVariables: which values a variable accepts is a parameter; the three verify functions are not modelled.
- Rates: the per-second rates and the total rate, which are floating point.
- ResultsetSort: the library sort itself, and floating-point NaN, which no order contains.
- ResourcePool: wait counts, wait times and changes of the idle timeout, which no other step reads.
