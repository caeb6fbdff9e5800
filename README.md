# pyTelloSDK controller core in Dafny

This project models the controller side of pyTelloSDK, the Python library that flies DJI Tello EDU drones over UDP. It covers:

- **The drone controller** (`AbstractDrone`, `Swarm`, `TelloEDU`), modelled by the class `Drones.Drone`. The field `config.kind` selects swarm or single-Tello behaviour. The model covers:
  - the `end_connection` flag and its setter, which closes the sockets;
  - the connection sweep `test_drone_connection`, which deletes unreachable drones while enumerating them;
  - `send` with its `try/except/finally`;
  - the instruction log `all_instructions`;
  - the `execute_actions` loop, which parses the drone index;
  - socket set-up and the start-up commands of the constructors, and `len()`;
  - one step each of the state-receive and video-receive loops.
- **The pure parts of the swarm** (module `Fleet`):
  - the delete-while-enumerating sweep over address/parameter slots;
  - the parse of state datagrams (`split(';')[:-1]`);
  - the 1460-byte frame-boundary rule of `receive_frame`.
- **The video queue** `VideoStream`, modelled by the class `VideoStreams.VideoStream`: `add_data`, `read` and `seek`.
- **The toolbox** (module `Toolbox`):
  - `reverse_actions`: a function `ReverseAll`, plus the imperative method `ReverseActions` that follows the source loop;
  - the `back_to_base` decorator, as `FlightModes.Guarded`/`Finish`;
  - the key table `command_from_key`.
- **The five flight modes** and the drone's `init_flight_mode`/`start_mission` (module `FlightModes`). The mode objects are modelled by the class `FlightModes.FlightMode`.
- **Python built-ins the core relies on** (module `PyBase`): `str.split` on one character, `str.join`, `int()` on text, `str()` of an integer, `strip`, `lower`, slicing and negative indexing.

Every state change has two parts:

- a specification function over values, e.g. `Drones.SendSpec`, `Drones.Execute`, `FlightModes.ReactiveStart`, `FlightModes.InitFlight`;
- an imperative method on the class whose `ensures` ties the new state to that function.

The lemmas then state what the controller promises about those functions. Flight modes are specified for *any* way of carrying out one `execute_actions` call (a function `exec`). The class methods are proved with the drone's own `execute_actions`. The predicate `FlightModes.Carries` connects the two, and `FlightModes.ExecutorCarries` proves that the drone's own call satisfies it.

External inputs become parameters:

- **`Drones.Network`**: which addresses answer a ping, and whether `sendto` raises OSError. It is fixed for one top-level call.
- **`FlightModes.Inputs`**:
  - the keys `getch` returns;
  - the lines `input` returns (the end of the list is EOF);
  - the mission file's content (None when the file does not exist);
  - the floating-point results of the picture mission.
- **The discovered address list**, passed to the constructors.
- **The pictures the decoder returns**, passed to `ReceiveFrame`.

Where the library's own description and the code disagree, the model follows the code:

- **Reversed `go` commands.** The description says `go x y z` is reversed on x and y only, with z left alone. The code negates the first three values, `values[:3]` at toolbox.py:48-49, so `0-go 10 20 5` becomes `0-go -10 -20 -5`.
- **Tello start-up.** `TelloEDU.init_commands` reads `self.front_mp`, which is never assigned (tello_edu.py:47). A Tello that answers its first ping therefore sends `command` and then raises AttributeError from its constructor (`Drones.TelloInitFails`, `Drones.TelloStartup`).
- **Modes run at once.** Every flight-mode constructor calls `start()` itself (flight_modes.py:30, 73, 105, 126, 145). The mission therefore runs inside `init_flight_mode`. A later `start_mission` runs `start()` again with no options, but only while the drone is still connected, and every mode that returns normally has ended the connection (`FlightModes.StartAfterInit`).

## Model

| member | source | states |
|---|---|---|
| PyBase.Split | toolbox.py:25-26 | `s.split(sep)` always yields at least one piece, and no piece contains the separator |
| PyBase.SplitCountsSep | toolbox.py:36 | `len(action.split(' ')) > 1` holds exactly when the text contains a space |
| PyBase.JoinSplit | toolbox.py:37-41 | joining the pieces of a split with the same separator gives the original text back |
| PyBase.SplitJoin | toolbox.py:37-41 | splitting a join of separator-free pieces gives the pieces back (the inverse direction) |
| PyBase.SplitCons | toolbox.py:25-26 | a separator-free prefix followed by the separator is the first piece, and the rest splits on its own |
| PyBase.Strip | abstract_drone.py:262 | `strip()` leaves no white space (Python's `isspace` set) at either end |
| PyBase.StripSlice | abstract_drone.py:262 | `s.strip()` is a slice `s[a:b]`: everything cut off before `a` and from `b` on is white space, and a non-empty result starts and ends with a character that is not |
| PyBase.StripChars | abstract_drone.py:262 | stripping keeps only characters the text already had |
| PyBase.StripNoSpace | abstract_drone.py:262 | text whose first and last characters are not white space (or empty text) is its own strip |
| PyBase.Lower | abstract_drone.py:262 | `lower()` keeps the length, leaves no capital letter, keeps every other character, and turns each capital into its lower-case letter |
| PyBase.LowerIdempotent | abstract_drone.py:262 | lower-casing text twice is the same as lower-casing it once |
| PyBase.IntToStr | abstract_drone.py:328 | `str(n)` is non-empty, and for n >= 0 it holds neither a minus sign nor a space |
| PyBase.ParseIntNoMinus | abstract_drone.py:326 | `int()` on text without a minus sign never yields a negative number |
| PyBase.ParseIntToStr | abstract_drone.py:326-328 | `int(str(n)) == n` for every integer |
| PyBase.PyIndex | swarm.py:76 | `xs[i]` is defined exactly for `-len(xs) <= i < len(xs)`, otherwise IndexError; it is `xs[i]` for i >= 0 and `xs[len(xs) + i]` for negative i |
| Toolbox.NegatedText | toolbox.py:49 | `str(-1 * int(v))` succeeds exactly when `int(v)` does, and its text parses back to the negated value |
| Toolbox.ReverseActions | toolbox.py:8-62 | the backwards loop with `continue` and `append` computes the reversal function `ReverseAll`, errors included |
| Toolbox.ReverseOneAction | toolbox.py:24-61 | one iteration of the loop body (parse, drop, swap, go, curve, flip, pass-through) is `ReverseEntry` of that entry |
| Toolbox.NegateGoValues | toolbox.py:48-49 | the in-place `go` loop yields `NegateFirstThree`: ValueError at the first non-number, otherwise the first three arguments negated |
| Toolbox.ReverseAllShape | toolbox.py:23-62 | the reversal succeeds exactly when no entry raises; then it has one output per entry not on the ignore list, last entry first, each being that entry's reversal |
| Toolbox.ReverseByOk | toolbox.py:23-62 | for any per-entry step, the reversed loop fails exactly when some entry's step raises |
| Toolbox.ReverseByKept | toolbox.py:23-62 | for any per-entry step, a successful reversal holds the images of the kept entries in reverse order |
| Toolbox.DroppedIffIgnorable | toolbox.py:16 | an entry yields nothing exactly when its command is on the ignore list |
| Toolbox.KeptIsKeptBy | toolbox.py:32-34 | the kept entries of the loop are exactly those whose command is not ignorable |
| Toolbox.ReverseOpposite | toolbox.py:39-44 | a command with a direct opposite is replaced by it, keeping the `"<id>-"` prefix and the argument text |
| Toolbox.ReverseContraryWords | toolbox.py:39-41 | for an entry written as plain words, the first word is replaced by its opposite and the arguments are kept |
| Toolbox.ReverseEmergency | toolbox.py:18 | `emergency` is reversed to `takeoff` |
| Toolbox.ReverseIgnorable | toolbox.py:32-34 | a query or mode toggle is dropped |
| Toolbox.ReverseCurve | toolbox.py:51-53 | `curve` becomes the placeholder `Undefined curve`, losing its prefix |
| Toolbox.ReversePassThrough | toolbox.py:54-61 | `jump` and unknown commands are appended unchanged |
| Toolbox.ReverseFlip | toolbox.py:56-57 | `flip l/r/f/b` swaps its letter and keeps the prefix; any other flip letter raises KeyError |
| Toolbox.ReverseNoDashWithSpace | toolbox.py:24-37 | an entry with a space but no dash makes `split('-')[1]` raise IndexError |
| Toolbox.NegateFirstThreeValues | toolbox.py:48-49 | the go rewrite fails (ValueError) exactly when one of the first three arguments is no integer; otherwise exactly those three are negated and the rest kept |
| Toolbox.ReverseGo | toolbox.py:46-50 | `go` keeps the prefix and its arguments become the negated list, or the ValueError escapes |
| Toolbox.ReverseNegativeGo | toolbox.py:25-49 | reversing an already negated `go` raises ValueError, since the minus sign is taken as the dash separator |
| Toolbox.ContraryInvolution | toolbox.py:18 | apart from `emergency`, each opposite is a plain word whose own opposite is the original command |
| Toolbox.ReverseEntryInvolution | toolbox.py:39-57 | the reversal of a reversible entry is reversible again and reverses back to the entry |
| Toolbox.ReverseByInvolution | toolbox.py:23-62 | a step that maps every good entry to a good entry that maps back makes a double reversal of a good log the identity |
| Toolbox.ReverseByTotal | toolbox.py:23-62 | when every entry yields one output, the reversal has the same length and holds entry `n-1-j` at position `j` |
| Toolbox.ReverseTwice | toolbox.py:8-62 | reversing a log of reversible entries twice gives the log back, and the reversed log has one entry per entry |
| Toolbox.CommandFromKey | toolbox.py:78-88 | the key-code table is consulted first, then the text table; None exactly when neither knows the key |
| Toolbox.KeyCommandsKnown | toolbox.py:80-83 | every command a key yields is one of the table's commands |
| Toolbox.KeyEntryReversible | toolbox.py:80-83 | a key command logged under a drone prefix is either a dropped query or reversible |
| Toolbox.KeyCommandReversible | toolbox.py:78-88 | every command a key sends, logged as `"<index>-<command>"`, is dropped by `reverse_actions` (`sn?`, `battery?`) or undone and restored by a second reversal |
| VideoStreams.VideoStream.constructor | video_stream.py:2-4 | a new stream has an empty queue and is open |
| VideoStreams.VideoStream.AddData | video_stream.py:6-8 | the datagram minus its first two bytes is queued at the back |
| VideoStreams.VideoStream.Read | video_stream.py:10-20 | whole chunks are taken from the front while the total stays below `size`; returned bytes followed by the remaining queue are the old queue's bytes |
| VideoStreams.VideoStream.Seek | video_stream.py:22-23 | seeking always answers -1 and changes nothing |
| VideoStreams.ReadBounds | video_stream.py:15 | what `read` returns is shorter than `size` unless empty, and one more chunk would have reached `size` |
| VideoStreams.ReadNothing | video_stream.py:15 | an empty queue, or a front chunk that alone reaches `size`, yields nothing |
| VideoStreams.Payload | video_stream.py:7 | `data[2:]`: putting the two header bytes back in front of the payload gives the datagram, and the payload is two bytes shorter; a datagram under two bytes has an empty payload |
| VideoStreams.ConcatSplit | video_stream.py:15-17 | the bytes of a queue are the bytes of its front part followed by those of the rest |
| Fleet.ZipProjections | swarm.py:30-32 | pairing the address list and the parameter list position by position rebuilds the slots they came from |
| Fleet.ZipRemove | swarm.py:69-70 | deleting at the same index from both lists deletes that slot |
| Fleet.SweepFromSkipping | swarm.py:66-70 | the delete-while-enumerating loop equals an independent front-to-back description in which the slot sliding into a deleted one is skipped |
| Fleet.SweepIsSkipping | swarm.py:62-71 | the sweep is that description |
| Fleet.SweepKeepsReachable | swarm.py:62-71 | the sweep keeps a subsequence of the slots, in order, and every reachable slot survives |
| Fleet.SweepSkipsNext | swarm.py:69 | of two unreachable drones the second one escapes deletion |
| Fleet.SweepEmpty | swarm.py:71 | the fleet is found empty exactly when it was empty or its only drone is unreachable |
| Fleet.SweepAllReachable | swarm.py:66-70 | with every drone reachable nothing is deleted |
| Fleet.ParseTelemetry | swarm.py:105 | the fields of a state datagram, `split(';')[:-1]`, hold no `;` |
| Fleet.TelemetryRoundTrip | swarm.py:105 | a datagram ending in `;` is its fields joined with `;` plus the final `;` |
| Fleet.TelemetryEmpty | swarm.py:105 | a datagram has no fields exactly when it holds no `;` |
| Fleet.FrameStepRule | swarm.py:126-142 | a datagram of exactly 1460 bytes is only gathered; any other length ends the frame, which is handed off whole and the accumulator restarts |
| Fleet.FrameRunWhole | swarm.py:126-142 | between frames, the accumulator only ever holds whole 1460-byte datagrams |
| Fleet.FrameRunConserves | swarm.py:126-142 | over any run of datagrams, the hand-offs followed by what is left are exactly the bytes that arrived, in order |
| Fleet.FrameRunCount | swarm.py:130 | one frame is handed off per datagram that is not 1460 bytes long |
| Drones.SetEndEffect | abstract_drone.py:104-114 | after the setter the flag is the value given; True leaves no socket open and creates none, False closes nothing; nothing else changes |
| Drones.TestConnectionFrame | swarm.py:62-71 | the sweep changes only the address list and the parameter slots |
| Drones.TestConnectionResult | swarm.py:62-71 | a swarm reports the end exactly when no address is left and its slots are the sweep's; a Tello (tello_edu.py:53-61) reports it exactly when its address does not answer, and changes nothing |
| Drones.TestConnectionSwarm | swarm.py:62-71 | a swarm's remaining drones keep their order, include every reachable one, and the connection ends exactly when the fleet was empty or its only drone is unreachable |
| Drones.SendLogs | swarm.py:73-84 | a datagram that goes out appends exactly `"<index>-<message>"` to the log; a failed one appends nothing; the only escaping exception is AttributeError, exactly when there is no command socket |
| Drones.SendFlag | swarm.py:78-84 | the flag after `send` is the result of the `finally` sweep, whatever `sendto` did; a swarm that ends closes its sockets, a Tello (tello_edu.py:74) keeps them |
| Drones.TargetIndexNatural | abstract_drone.py:326 | the index parsed before the first `-` is never negative |
| Drones.TargetIndexed | abstract_drone.py:326-328 | `"<n>-cmd"` with n below `len(self)` sends `cmd` to drone n |
| Drones.TargetTooBig | abstract_drone.py:329-330 | with n at or above `len(self)` the whole entry is sent, to index n |
| Drones.TargetNoIndex | abstract_drone.py:331-333 | an entry with no integer before the first `-` goes whole to drone 0 |
| Drones.ExecuteCalls | abstract_drone.py:318-339 | at most one `send` per entry, in list order, each built from its entry; the loop stops early only on an exception or once the connection has ended |
| Drones.ExecuteSleeps | abstract_drone.py:337-339 | there is a 3-second pause between two calls and none after the last entry |
| Drones.LoopCalls | abstract_drone.py:322-336 | for any way of handling one entry, the loop makes at most one call per remaining entry, each one the step allows |
| Drones.LoopSleeps | abstract_drone.py:336-339 | the loop pauses once fewer than it calls when it runs to the end or raises, and once per call when the connection ends early |
| Drones.ExecEnded | abstract_drone.py:322 | a drone whose connection has ended sends nothing |
| Drones.InitCallsOrder | swarm.py:53-60 | a swarm's start-up sends `command` and, with video, `streamon` drone by drone in ascending order |
| Drones.TelloInitFails | tello_edu.py:43-51 | a Tello's `init_commands` always raises AttributeError (unassigned `front_mp`) after at most the `command` entry |
| Drones.TelloStartup | tello_edu.py:30-35 | a Tello that answers ends its constructor with AttributeError after opening its command socket; one that does not opens nothing and raises nothing |
| Drones.SwarmStartup | swarm.py:34-38 | a swarm that keeps a drone after the first sweep opens its sockets and sends its start-up commands without an exception; one that keeps none opens nothing |
| Drones.SendAllOpen | swarm.py:73-84 | once the command socket exists, sending never raises and never drops it |
| Drones.SendKeepsSocket | swarm.py:73-84 | `send` neither creates nor drops the command socket |
| Drones.FirstIndex | swarm.py:104 | `list.index(x)` is the first position holding x; ValueError (None) exactly when x is absent |
| Drones.Drone.constructor | abstract_drone.py:56-80 | the base constructor starts connected, with no socket, empty logs, no frame, no flight mode and an empty open video queue |
| Drones.Drone.SetEndConnection | abstract_drone.py:104-114 | the setter's new state is `SetEnd` of the old one |
| Drones.Drone.TestDroneConnection | swarm.py:62-71 | the in-place delete-while-enumerating loop follows `TestConnection` |
| Drones.Drone.Send | swarm.py:73-84 | `send` (tello_edu.py:63-74 for a Tello) leaves the state `SendSpec` describes and returns the escaping exception |
| Drones.Drone.ChooseTarget | abstract_drone.py:325-333 | the index and text chosen for an entry are `Target`'s |
| Drones.Drone.ExecuteEntry | abstract_drone.py:323-335 | one turn of the loop follows one `Stepper` step |
| Drones.Drone.ExecuteActions | abstract_drone.py:318-339 | the `while` loop leaves the state, calls, pauses and exception of `Execute` |
| Drones.Drone.InitDroneSockets | abstract_drone.py:122-143 | the command socket always opens, the state socket with a state listener, the video socket only with video and a decoder |
| Drones.Drone.InitCommands | swarm.py:53-60 | start-up commands (tello_edu.py:43-51 for a Tello) follow `InitCommandsSpec` |
| Drones.Drone.InitDrone | swarm.py:56-60 | one drone's start-up turn sends `command` then, with video, `streamon` |
| Drones.Drone.ConnectSwarm | swarm.py:16-38 | without addresses the discovered drones are used, and none raises InterruptedError with nothing changed; otherwise one empty slot per address, then `Startup` |
| Drones.Drone.ConnectTello | tello_edu.py:16-35 | without an address the first discovered drone is used, and none raises InterruptedError with nothing changed; otherwise `Startup` |
| Drones.Drone.Start | swarm.py:34-38 | the first sweep is stored in the flag; only a connected drone opens sockets and sends start-up commands |
| Drones.Drone.ReceiveState | swarm.py:103-110 | a swarm stores the parsed fields in the slot of the first drone with the sender's address; an unknown sender (ValueError) or a datagram that is not UTF-8 (UnicodeDecodeError), both swallowed at swarm.py:108, changes nothing; a Tello (tello_edu.py:93) parses but stores nothing |
| Drones.Drone.IsConnected | abstract_drone.py:94-97 | `is_connected` is the negation of `_end_connection`; for a Tello it holds exactly when `len()` is 1 (tello_edu.py:40-41) |
| Drones.Drone.TakePicture | abstract_drone.py:298-300 | `take_picture` returns `last_frame`, None while no frame has been decoded |
| Drones.Drone.ReceiveFrame | swarm.py:124-142 | the datagram joins `all_data` and (without its header) the video queue; a frame boundary hands `all_data` off and, with a decoder, the last decoded picture becomes `last_frame` |
| FlightModes.ExecutorCarries | abstract_drone.py:318-339 | the drone's own `execute_actions` is a valid way of carrying out the modes' calls |
| FlightModes.EachDroneTargets | flight_modes.py:50-51 | each call of `for index in range(len(swarm))` is one entry `"<index>-<command>"`, which `execute_actions` (abstract_drone.py:323-333) sends as the bare command to drone `index` while the fleet still has that many drones |
| FlightModes.ActAllShape | flight_modes.py:221-251 | a sequence of calls adds at most the given lists, in order, and no picture; without an exception it adds all of them |
| FlightModes.ActAllRaised | flight_modes.py:221-251 | once an exception is raised, further calls change nothing |
| FlightModes.GuardedEnded | toolbox.py:67-75 | a mode started on an ended connection does nothing and returns None |
| FlightModes.GuardedReturns | toolbox.py:64-76 | after a body that returns, `back_to_base` replays the reversed log once when asked (a reversal error escapes), then ends the connection and closes the sockets; pictures are untouched |
| FlightModes.GuardedEnds | toolbox.py:73 | a mode that returns without an exception leaves the connection ended |
| FlightModes.ReactiveSends | flight_modes.py:41-65 | the reactive mode sends only single-entry `"<i>-<command>"` lists whose command is `land` or a key's command, and every picture is the last frame |
| FlightModes.ReactiveExit | flight_modes.py:49-54 | an exit key lands every drone in order, one call each, then ends the connection; with no command socket `close()` raises AttributeError |
| FlightModes.ReactiveSkips | flight_modes.py:56-60 | escape characters are skipped, and `p` adds exactly one picture, the last frame |
| FlightModes.ReactiveCommand | flight_modes.py:61-65 | a key with a command sends it to every drone in order before the next key; a key without one sends nothing |
| FlightModes.PipeCommands | flight_modes.py:89-95 | the lines the pipe executes come from its input and are never empty, `p` or `exit` |
| FlightModes.PipeComplete | flight_modes.py:82-99 | a pipe that ends still connected and without an exception executed each line up to the first `exit` except `p` and empty ones, alone and in order, and took one picture per `p` |
| FlightModes.PipeSends | flight_modes.py:82-95 | whatever happens, the pipe executes only single input lines other than `exit`, `p` and the empty line, and collects only the last frame |
| FlightModes.PipeRaised | flight_modes.py:82-95 | once an exception escapes, the pipe stops where it is |
| FlightModes.ListModes | flight_modes.py:107-131 | on a connected drone the file mode makes one call with the file's lines and the list mode one call with the list; no file name or no list raises TypeError first; an unreadable file calls nothing |
| FlightModes.GroundPictureCalls | flight_modes.py:190-201 | a ground shot calls `0-land`, takes one picture, calls `0-takeoff`, then `0-up h-100` above 100 and `0-down 100-h` otherwise |
| FlightModes.AroundPointCounts | flight_modes.py:236-246 | one point of a level makes six calls and takes two pictures |
| FlightModes.PointsCounts | flight_modes.py:236-246 | k points make 6k calls and take 2k pictures |
| FlightModes.LevelCountIsCount | flight_modes.py:235-247 | the number of levels counts exactly the heights 10 + 20k below the object's height |
| FlightModes.LevelsCounts | flight_modes.py:235-249 | each level makes 49 calls (8 points and a climb) and takes 16 pictures |
| FlightModes.MoveAroundCounts | flight_modes.py:203-253 | a picture mission that raises nothing makes 5 + 49 calls per level and takes 16 pictures per level |
| FlightModes.ApproachSide | flight_modes.py:229-232 | the approach ends with `right x` for x > 0 and `left abs(x)` otherwise, sent to drone 0 |
| FlightModes.PictureMissionGuards | flight_modes.py:142-166 | without video the constructor ends the connection so the mission never runs; without distance or dimensions the body calls nothing |
| FlightModes.PointsRaised | flight_modes.py:236-246 | an exception stops the points of a level where they are |
| FlightModes.LevelsRaised | flight_modes.py:235-249 | an exception stops the levels where they are |
| FlightModes.ModeOf | abstract_drone.py:263-288 | exactly the five mode names select a mode |
| FlightModes.InitFlightRefused | abstract_drone.py:258-288 | a disconnected drone changes nothing; an unknown name ends the connection; a missing file name or action list ends it and raises TypeError, in each case with no call |
| FlightModes.StartModeEnds | toolbox.py:64-76 | every mode that returns normally leaves the connection ended |
| FlightModes.StartAfterInit | abstract_drone.py:290-296 | after an `init_flight_mode` that returned, `start_mission` does nothing, and a stored flight mode implies the connection has ended |
| FlightModes.FlightMode.constructor | flight_modes.py:17-20 | a new mode object flies the given drone and has no pictures |
| FlightModes.FlightMode.ExecuteBatch | abstract_drone.py:318-339 | one `execute_actions` call from a mode follows `Act` |
| FlightModes.FlightMode.TakePicture | flight_modes.py:58-60 | `all_images.append(swarm.take_picture())` appends the drone's last frame |
| FlightModes.FlightMode.ExecuteAll | flight_modes.py:221-233 | a run of calls follows `ActAll` |
| FlightModes.FlightMode.SendEach | flight_modes.py:62-63 | the per-drone loop follows `ActAll` over `EachDrone`, with the drone count fixed at the start |
| FlightModes.FlightMode.BackToBase | toolbox.py:69-73 | the decorator's tail (replay of the reversed log, then end of connection) follows `Finish` |
| FlightModes.FlightMode.LandAll | flight_modes.py:49-54 | the exit-key branch follows `Land` |
| FlightModes.FlightMode.HandleKey | flight_modes.py:55-65 | one non-exit key follows `KeyStep` |
| FlightModes.FlightMode.StartReactive | flight_modes.py:32-67 | the reactive mode follows `ReactiveStart`, and reports whether it is still waiting for a key |
| FlightModes.FlightMode.HandleLine | flight_modes.py:91-95 | one non-`exit` line follows `PipeStep` |
| FlightModes.FlightMode.StartOpenPipe | flight_modes.py:75-99 | the open pipe follows `OpenPipeStart` |
| FlightModes.FlightMode.StartFromFile | flight_modes.py:107-120 | the file mode follows `ActFromFileStart` |
| FlightModes.FlightMode.StartFromList | flight_modes.py:128-131 | the list mode follows `ActFromListStart` |
| FlightModes.FlightMode.GroundAnglePicture | flight_modes.py:190-201 | the ground shot follows `GroundPicture` |
| FlightModes.FlightMode.VisitPoint | flight_modes.py:239-246 | one point follows `AroundPoint` |
| FlightModes.FlightMode.FlyLevel | flight_modes.py:236-246 | the inner `for` loop over the points follows `Points` |
| FlightModes.FlightMode.FlyLevels | flight_modes.py:235-249 | the `while` loop over levels follows `Levels` from height 10 |
| FlightModes.FlightMode.FlyAround | flight_modes.py:203-253 | `move_around` follows `MoveAround` |
| FlightModes.FlightMode.StartPictureMission | flight_modes.py:147-168 | the picture mission follows `PictureStart` |
| FlightModes.FlightMode.Start | flight_modes.py:23-24 | `start(**options)` dispatches on the mode and follows `StartMode` |
| FlightModes.NewFlightMode | flight_modes.py:133-145 | building a mode object runs it at once, as `BuildMode` says; the picture mission first ends the connection without video |
| FlightModes.InitFlightMode | abstract_drone.py:258-288 | `init_flight_mode` follows `InitFlight`: guards, errors, the mode run, and `flight_mode` stored only when the run returned normally |
| FlightModes.StartMission | abstract_drone.py:290-296 | `start_mission` follows `StartMissionSpec`: only a connected drone with a mode re-runs `start()` with no options, adding to the mode's pictures |

## Left out

- Drone discovery: `get_all_drones` and `still_connected` (abstract_drone.py:145-255) run `ping`, `arp` and `ifconfig`. Their results are inputs: the discovered address list and `Network.reachable`.
- `process_frame` and the H.264 decoders (abstract_drone.py:341-365) are foreign libraries. `ReceiveFrame` takes the decoded pictures as a parameter, and `Config.decoder` says whether a decoder was imported.
- `save_pictures` (abstract_drone.py:302-316) writes files. The modes' calls to it are left out, and their pictures stay in `all_images`.
- Opening the mission file in `ActFromFileMode`: the content is an input, None when the file does not exist (the FileNotFoundError caught at flight_modes.py:119). Only the TypeError of joining a missing name into a path is modelled. The path itself is not.
- Other errors opening or reading the mission file (PermissionError, IsADirectoryError, a UnicodeDecodeError while reading) are left out. They are not caught at flight_modes.py:119, so they would escape `start` and `back_to_base` would not end the connection.
- Threads are left out. The ack, state and video threads run one step each when called (`ReceiveState`, `ReceiveFrame`). `receive_ack` is left out. On a timeout or OSError it assigns `_end_connection` directly (swarm.py:93), so the setter does not run and no socket is closed. A swarm then runs a full `test_drone_connection` sweep (swarm.py:94), which can delete drones and reassigns the flag. A reply from an unknown address raises ValueError at swarm.py:91, which that handler does not catch, so the thread dies. Concurrent interleavings with the flight modes are not modelled.
- `sleep` calls are counted (`Executed.sleeps`) but not timed.
- The `print` messages and the `status`, `__repr__` and `threads_alive` properties only produce text and are left out.
- `get_in_front` and the floating-point parts of `move_around` (`sqrt`, `cos`, `sin`, `ceil`, the 1.2 radius factor) are left out. Their results enter as `Placement` (position, and the text of the two displacements between shots).
- `getch` byte decoding and KeyboardInterrupt are left out. Keys enter as strings, and a key code `KeyCode` exists only for `command_from_key`'s integer table.
- `input()` raising KeyboardInterrupt is left out. The end of the line list stands for EOFError.
- A mode that waits for ever in `getch` is reported as `blocked` instead of never returning.
- The flight-mode object stored in `drone.flight_mode` is kept as a value, `FlightModeState` (its mode and pictures). Aliasing between that object and the running mode is not modelled.
- The swarm constructor stores the caller's address list itself, not a copy (swarm.py:30). The deletes of `test_drone_connection` (swarm.py:69) therefore also shrink the list the caller passed in. The model copies the list into `addresses`, so this aliasing is not modelled.
- `bind()` failing in `init_drone_sockets` (abstract_drone.py:125, 132, 139), for example because the local port is taken, raises OSError out of the constructor. The model leaves this out: `InitDroneSockets` always succeeds.
- The network's answers are fixed for one top-level call. They do not change between two pings of one call.
- Fleet.Zip: an address without a parameter slot is paired with an empty one. The controller keeps both lists the same length, so this padding never shows.
- PyBase.ParseInt: `int()` accepts the ASCII digits with an optional sign and Python's white space. Underscores between digits and non-ASCII digits are not modelled.
- PyBase.Lower: lower-cases ASCII letters only. Every mode name is ASCII, and a non-ASCII character cannot produce one after lower-casing.
- FlightModes.FlightMode.ExecuteAll: the source writes several literal `execute_actions` calls one after the other. The model runs them as one loop over a list of lists, and the call order is the same.
- `video_ui.py` and the test scripts under `Tests/` are outside the controller core.
- Mission-pad commands (`mon`, `moff`, jump with mission pads) are only logged and reversed as text.
