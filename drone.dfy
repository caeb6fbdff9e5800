/**
 * The drone controller's state machine: the connection flag and the setter
 * that closes the sockets, the log of instructions sent, `send`,
 * `execute_actions`, the start-up commands, and one step of the state and
 * video receive loops.  One class covers the abstract base and both concrete
 * drones; its `config.kind` says whether it behaves as a swarm (a list of
 * addresses) or as a single Tello EDU.
 *
 * Every state change is specified by a function over `Link`, the part of the
 * object's state that sending touches, and the lemmas about those functions
 * state what the controller promises.
 */
module Drones {
  import opened PyBase
  import opened Fleet
  import opened VideoStreams

  // ---------------------------------------------------------------------
  // The state, as values
  // ---------------------------------------------------------------------

  /** A socket attribute: never created (None), open, or closed. */
  datatype Socket = Absent | Open | Closed

  datatype Kind = SwarmKind | TelloKind

  /**
   * The constructor's keyword options, and whether an H.264 decoder
   * (the compiled library or py-av) could be imported.
   */
  datatype Config = Config(kind: Kind, videoStream: bool, stateListener: bool, backToBase: bool, decoder: bool)

  /**
   * What the network answers during one call: the addresses that answer a
   * ping, and whether `sendto` raises OSError.
   */
  datatype Network = Network(reachable: set<string>, sendFails: bool)

  /** A decoded video frame. */
  datatype Picture = Picture(pixels: seq<byte>)

  /** One call `send(message, index)`. */
  datatype Call = Call(index: int, message: string)

  /** The flight modes `init_flight_mode` can build. */
  datatype Mode = ActFromFile | ActFromList | OpenPipe | PictureMission | Reactive

  /** A flight-mode object: its kind and the pictures it collected. */
  datatype FlightModeState = FlightModeState(mode: Mode, images: seq<Option<Picture>>)

  /** The attributes that sending and the connection sweep read and write. */
  datatype Link = Link(
    addresses: seq<string>,
    telloAddress: string,
    lastParameters: seq<seq<string>>,
    allInstructions: seq<string>,
    endConnection: bool,
    command: Socket,
    state: Socket,
    video: Socket)

  /** Every address of a swarm has its parameter slot. */
  predicate Aligned(l: Link)
  {
    |l.addresses| == |l.lastParameters|
  }

  // ---------------------------------------------------------------------
  // The connection flag
  // ---------------------------------------------------------------------

  function Close(s: Socket): Socket
  {
    if s == Absent then Absent else Closed
  }

  /** The `end_connection` setter: raising the flag closes every socket that exists. */
  function SetEnd(l: Link, value: bool): Link
  {
    if value then l.(endConnection := true, command := Close(l.command), state := Close(l.state), video := Close(l.video))
    else l.(endConnection := false)
  }

  /**
   * After the setter the flag is the value given; True leaves no socket open
   * and creates none, False closes nothing; nothing else changes.
   */
  lemma SetEndEffect(l: Link, value: bool)
    ensures var r := SetEnd(l, value);
      r.endConnection == value &&
      r.(endConnection := l.endConnection, command := l.command, state := l.state, video := l.video) == l &&
      (value ==> r.command != Open && r.state != Open && r.video != Open) &&
      (value ==> (r.command == Absent <==> l.command == Absent) && (r.state == Absent <==> l.state == Absent) &&
                 (r.video == Absent <==> l.video == Absent)) &&
      (!value ==> r.command == l.command && r.state == l.state && r.video == l.video)
  {
  }

  /** `len(self)`: the number of addresses of a swarm; 1 for a connected Tello, else 0. */
  function LenOf(cfg: Config, l: Link): nat
  {
    if cfg.kind == SwarmKind then |l.addresses|
    else if l.endConnection then 0 else 1
  }

  // ---------------------------------------------------------------------
  // test_drone_connection
  // ---------------------------------------------------------------------

  /** The state after `test_drone_connection`, and what it returns. */
  datatype Tested = Tested(link: Link, ended: bool)

  function TestConnection(cfg: Config, l: Link, net: Network): Tested
  {
    if cfg.kind == SwarmKind then
      var kept := Sweep(Zip(l.addresses, l.lastParameters), net.reachable);
      Tested(l.(addresses := Addresses(kept), lastParameters := Parameters(kept)), |kept| == 0)
    else
      Tested(l, l.telloAddress !in net.reachable)
  }

  /** The sweep changes the address list and the parameter slots and nothing else. */
  lemma TestConnectionFrame(cfg: Config, l: Link, net: Network)
    ensures var t := TestConnection(cfg, l, net);
      t.link.(addresses := l.addresses, lastParameters := l.lastParameters) == l
  {
  }

  /**
   * A swarm reports the end of the connection exactly when no address is
   * left, and only addresses and parameter slots change; a Tello reports it
   * exactly when its one address does not answer, and changes nothing.
   */
  lemma TestConnectionResult(cfg: Config, l: Link, net: Network)
    requires Aligned(l)
    ensures var t := TestConnection(cfg, l, net);
      Aligned(t.link) &&
      t.link.(addresses := l.addresses, lastParameters := l.lastParameters) == l &&
      (cfg.kind == SwarmKind ==> (t.ended <==> |t.link.addresses| == 0)) &&
      (cfg.kind == SwarmKind ==> Zip(t.link.addresses, t.link.lastParameters) == Sweep(Zip(l.addresses, l.lastParameters), net.reachable)) &&
      (cfg.kind == TelloKind ==> t.link == l && (t.ended <==> l.telloAddress !in net.reachable))
  {
    if cfg.kind == SwarmKind {
      ZipProjections(Sweep(Zip(l.addresses, l.lastParameters), net.reachable));
    }
  }

  /**
   * Put in the swarm's terms: the addresses left keep their order, every
   * reachable one is among them, and the sweep ends the connection exactly
   * when the fleet was empty or its only drone is unreachable.
   */
  lemma TestConnectionSwarm(cfg: Config, l: Link, net: Network)
    requires Aligned(l) && cfg.kind == SwarmKind
    ensures var t := TestConnection(cfg, l, net);
      var before := Zip(l.addresses, l.lastParameters);
      var after := Zip(t.link.addresses, t.link.lastParameters);
      Subsequence(after, before) &&
      Reachable(after, net.reachable) == Reachable(before, net.reachable) &&
      (t.ended <==> |l.addresses| == 0 || (|l.addresses| == 1 && l.addresses[0] !in net.reachable))
  {
    var before := Zip(l.addresses, l.lastParameters);
    TestConnectionResult(cfg, l, net);
    SweepKeepsReachable(before, net.reachable);
    SweepEmpty(before, net.reachable);
  }

  // ---------------------------------------------------------------------
  // send
  // ---------------------------------------------------------------------

  /** The state after `send`, and the exception it lets escape. */
  datatype Sent = Sent(link: Link, error: Option<Exc>)

  /** The log line of a call that went out. */
  function Entry(index: int, message: string): string
  {
    IntToStr(index) + "-" + message
  }

  /**
   * `sendto` succeeds: the socket is open, the network takes the datagram and,
   * for a swarm, `addresses[index]` exists (negative indices count from the end).
   */
  predicate Delivered(cfg: Config, l: Link, index: int, net: Network)
  {
    l.command == Open && !net.sendFails &&
    (cfg.kind == SwarmKind ==> PyIndex(l.addresses, index).Some?)
  }

  /**
   * `send(message, index)`.  With no command socket the attribute lookup raises
   * AttributeError, which no handler catches; OSError and IndexError are caught
   * and log nothing.  Either way the `finally` clause sweeps the connection:
   * a swarm stores the result through the setter, a Tello into the flag itself.
   */
  function SendSpec(cfg: Config, l: Link, message: string, index: int, net: Network): Sent
  {
    var logged := if Delivered(cfg, l, index, net)
      then l.(allInstructions := l.allInstructions + [Entry(index, message)])
      else l;
    var t := TestConnection(cfg, logged, net);
    var after := if cfg.kind == SwarmKind then SetEnd(t.link, t.ended) else t.link.(endConnection := t.ended);
    Sent(after, if l.command == Absent then Some(AttributeError) else None)
  }

  /**
   * A call that goes out appends exactly `"<index>-<message>"` to the log; one
   * that fails appends nothing.  The only exception is AttributeError, raised
   * exactly when there is no command socket.
   */
  lemma SendLogs(cfg: Config, l: Link, message: string, index: int, net: Network)
    requires Aligned(l)
    ensures var s := SendSpec(cfg, l, message, index, net);
      Aligned(s.link) &&
      (Delivered(cfg, l, index, net) ==> s.link.allInstructions == l.allInstructions + [Entry(index, message)]) &&
      (!Delivered(cfg, l, index, net) ==> s.link.allInstructions == l.allInstructions) &&
      (s.error.Some? <==> l.command == Absent) &&
      (s.error.Some? ==> s.error.value == AttributeError)
  {
    var logged := if Delivered(cfg, l, index, net)
      then l.(allInstructions := l.allInstructions + [Entry(index, message)])
      else l;
    TestConnectionResult(cfg, logged, net);
  }

  /**
   * Whatever the outcome of `sendto`, the flag afterwards is the result of the
   * sweep: the True written by the OSError handler never survives.  A swarm
   * also closes its sockets when the sweep ends the connection; a Tello writes
   * the flag past the setter and leaves its sockets as they were.
   */
  lemma SendFlag(cfg: Config, l: Link, message: string, index: int, net: Network)
    requires Aligned(l)
    ensures var s := SendSpec(cfg, l, message, index, net);
      var t := TestConnection(cfg, l, net);
      s.link.endConnection == t.ended &&
      s.link.addresses == t.link.addresses &&
      (cfg.kind == SwarmKind && t.ended ==> s.link.command != Open && s.link.state != Open && s.link.video != Open) &&
      (cfg.kind == TelloKind ==> s.link.command == l.command && s.link.state == l.state && s.link.video == l.video)
  {
    var logged := if Delivered(cfg, l, index, net)
      then l.(allInstructions := l.allInstructions + [Entry(index, message)])
      else l;
    TestConnectionResult(cfg, logged, net);
    TestConnectionResult(cfg, l, net);
  }

  // ---------------------------------------------------------------------
  // execute_actions
  // ---------------------------------------------------------------------

  /**
   * The call `execute_actions` makes for one entry: the integer before the
   * first '-' is the index, stripped from the text when it is below `len(self)`
   * and left in it otherwise; no integer there means index 0 and the whole text.
   */
  function Target(cfg: Config, l: Link, action: string): Call
  {
    var parsed := ParseInt(Split(action, '-')[0]);
    if parsed.None? then Call(0, action)
    else if parsed.value < LenOf(cfg, l) then Call(parsed.value, SliceFrom(action, |IntToStr(parsed.value)| + 1))
    else Call(parsed.value, action)
  }

  /** The text before an entry's first '-' holds no '-', so the index is never negative. */
  lemma TargetIndexNatural(cfg: Config, l: Link, action: string)
    ensures Target(cfg, l, action).index >= 0
  {
    ParseIntNoMinus(Split(action, '-')[0]);
  }

  /** `"<n>-cmd"` with n below `len(self)` sends `cmd` to drone n. */
  lemma TargetIndexed(cfg: Config, l: Link, n: nat, cmd: string)
    requires n < LenOf(cfg, l)
    ensures Target(cfg, l, Entry(n, cmd)) == Call(n, cmd)
  {
    var digits := IntToStr(n);
    SplitCons(digits, '-', cmd);
    assert Entry(n, cmd) == digits + ['-'] + cmd;
    ParseIntToStr(n);
    assert Entry(n, cmd)[|digits| + 1..] == cmd;
  }

  /** `"<n>-cmd"` with n at or above `len(self)` is sent whole, to index n. */
  lemma TargetTooBig(cfg: Config, l: Link, n: nat, cmd: string)
    requires n >= LenOf(cfg, l)
    ensures Target(cfg, l, Entry(n, cmd)) == Call(n, Entry(n, cmd))
  {
    var digits := IntToStr(n);
    SplitCons(digits, '-', cmd);
    assert Entry(n, cmd) == digits + ['-'] + cmd;
    ParseIntToStr(n);
  }

  /** An entry whose text before the first '-' is not an integer goes whole to drone 0. */
  lemma TargetNoIndex(cfg: Config, l: Link, action: string)
    requires ParseInt(Split(action, '-')[0]).None?
    ensures Target(cfg, l, action) == Call(0, action)
  {
  }

  /** How a call can come from an entry, whatever the state. */
  predicate Targets(action: string, c: Call)
  {
    var parsed := ParseInt(Split(action, '-')[0]);
    (parsed.None? && c == Call(0, action)) ||
    (parsed.Some? && c.index == parsed.value &&
     (c.message == action || c.message == SliceFrom(action, |IntToStr(parsed.value)| + 1)))
  }

  /**
   * What `execute_actions` leaves: the state, the calls made in order, the
   * number of `sleep(3)` pauses, and the exception that stopped it.
   */
  datatype Executed = Executed(link: Link, calls: seq<Call>, sleeps: nat, error: Option<Exc>)

  /** What one entry does: the call it makes and what `send` leaves. */
  datatype Stepped = Stepped(call: Call, sent: Sent)

  function ExecStep(cfg: Config, net: Network, l: Link, action: string): Stepped
  {
    var c := Target(cfg, l, action);
    Stepped(c, SendSpec(cfg, l, c.message, c.index, net))
  }

  /**
   * The loop of `execute_actions` from position i on, for any way of handling
   * one entry: it runs while connected and entries remain, pauses after every
   * entry but the last, and stops at the first exception.
   */
  function Loop(step: (Link, string) -> Stepped, l: Link, actions: seq<string>, i: nat): Executed
    decreases |actions| - i
  {
    if l.endConnection || i >= |actions| then Executed(l, [], 0, None)
    else
      var s := step(l, actions[i]);
      if s.sent.error.Some? then Executed(s.sent.link, [s.call], 0, s.sent.error)
      else
        var rest := Loop(step, s.sent.link, actions, i + 1);
        Executed(rest.link, [s.call] + rest.calls, (if i + 1 < |actions| then 1 else 0) + rest.sleeps, rest.error)
  }

  /** The loop's outcome after `calls` were made and `sleeps` pauses taken. */
  function Resume(calls: seq<Call>, sleeps: nat, rest: Executed): Executed
  {
    Executed(rest.link, calls + rest.calls, sleeps + rest.sleeps, rest.error)
  }

  /** One turn of the loop that raises ends it with that turn's call. */
  lemma LoopRaise(step: (Link, string) -> Stepped, l: Link, actions: seq<string>, i: nat, calls: seq<Call>, sleeps: nat)
    requires !l.endConnection && i < |actions| && step(l, actions[i]).sent.error.Some?
    ensures var s := step(l, actions[i]);
      Resume(calls, sleeps, Loop(step, l, actions, i)) == Executed(s.sent.link, calls + [s.call], sleeps, s.sent.error)
  {
  }

  /** One turn of the loop that raises nothing moves on to the next entry. */
  lemma LoopAdvance(step: (Link, string) -> Stepped, l: Link, actions: seq<string>, i: nat, calls: seq<Call>, sleeps: nat)
    requires !l.endConnection && i < |actions| && step(l, actions[i]).sent.error.None?
    ensures var s := step(l, actions[i]);
      Resume(calls, sleeps, Loop(step, l, actions, i)) ==
      Resume(calls + [s.call], sleeps + (if i + 1 < |actions| then 1 else 0), Loop(step, s.sent.link, actions, i + 1))
  {
    var s := step(l, actions[i]);
    var rest := Loop(step, s.sent.link, actions, i + 1);
    assert calls + ([s.call] + rest.calls) == (calls + [s.call]) + rest.calls;
  }

  /** The loop does nothing once the connection has ended or no entry is left. */
  lemma LoopDone(step: (Link, string) -> Stepped, l: Link, actions: seq<string>, i: nat, calls: seq<Call>, sleeps: nat)
    requires l.endConnection || i >= |actions|
    ensures Resume(calls, sleeps, Loop(step, l, actions, i)) == Executed(l, calls, sleeps, None)
  {
    assert calls + [] == calls;
  }

  function Stepper(cfg: Config, net: Network): (Link, string) -> Stepped
  {
    (l: Link, action: string) => ExecStep(cfg, net, l, action)
  }

  /** `execute_actions(actions)`. */
  function Execute(cfg: Config, l: Link, actions: seq<string>, net: Network): Executed
  {
    Loop(Stepper(cfg, net), l, actions, 0)
  }

  /**
   * At most one call per entry, in list order, each one that a step may make
   * for its entry; the loop stops early only on an exception or once the
   * connection has ended.
   */
  lemma {:induction false} LoopCalls(step: (Link, string) -> Stepped, fits: (string, Call) -> bool,
                                     l: Link, actions: seq<string>, i: nat)
    requires i <= |actions|
    requires forall l': Link, a: string :: fits(a, step(l', a).call)
    ensures var r := Loop(step, l, actions, i);
      |r.calls| <= |actions| - i &&
      (forall j :: 0 <= j < |r.calls| ==> fits(actions[i + j], r.calls[j])) &&
      (i + |r.calls| < |actions| ==> r.error.Some? || r.link.endConnection)
    decreases |actions| - i
  {
    if !l.endConnection && i < |actions| {
      var s := step(l, actions[i]);
      if s.sent.error.None? {
        LoopCalls(step, fits, s.sent.link, actions, i + 1);
        var rest := Loop(step, s.sent.link, actions, i + 1);
        var r := Loop(step, l, actions, i);
        assert r.calls == [s.call] + rest.calls;
        forall j | 0 <= j < |r.calls| ensures fits(actions[i + j], r.calls[j]) {
          if j > 0 {
            assert r.calls[j] == rest.calls[j - 1];
            assert actions[i + j] == actions[(i + 1) + (j - 1)];
          }
        }
      }
    }
  }

  /**
   * There is a pause between two calls and none after the last entry: when
   * every entry was sent, or an exception stopped the loop, there is one pause
   * fewer than calls; when the connection ended first, one pause follows
   * the last call.
   */
  lemma {:induction false} LoopSleeps(step: (Link, string) -> Stepped, l: Link, actions: seq<string>, i: nat)
    requires i <= |actions|
    ensures var r := Loop(step, l, actions, i);
      (|r.calls| == 0 ==> r.sleeps == 0) &&
      (|r.calls| > 0 && (r.error.Some? || i + |r.calls| == |actions|) ==> r.sleeps == |r.calls| - 1) &&
      (|r.calls| > 0 && r.error.None? && i + |r.calls| < |actions| ==> r.sleeps == |r.calls|)
    decreases |actions| - i
  {
    if !l.endConnection && i < |actions| {
      var s := step(l, actions[i]);
      if s.sent.error.None? {
        LoopSleeps(step, s.sent.link, actions, i + 1);
        LoopBound(step, s.sent.link, actions, i + 1);
      }
    }
  }

  lemma {:induction false} LoopBound(step: (Link, string) -> Stepped, l: Link, actions: seq<string>, i: nat)
    requires i <= |actions|
    ensures |Loop(step, l, actions, i).calls| <= |actions| - i
    decreases |actions| - i
  {
    if !l.endConnection && i < |actions| {
      var s := step(l, actions[i]);
      var r := Loop(step, l, actions, i);
      if s.sent.error.None? {
        LoopBound(step, s.sent.link, actions, i + 1);
        assert r.calls == [s.call] + Loop(step, s.sent.link, actions, i + 1).calls;
      } else {
        assert r.calls == [s.call];
      }
    }
  }

  /** Every call a step of `execute_actions` makes is one its entry allows. */
  lemma StepperFits(cfg: Config, net: Network)
    ensures forall l': Link, a: string :: Targets(a, Stepper(cfg, net)(l', a).call)
  {
  }

  /** `LoopCalls` from the first entry on. */
  lemma LoopCallsFromStart(step: (Link, string) -> Stepped, fits: (string, Call) -> bool,
                           l: Link, actions: seq<string>)
    requires forall l': Link, a: string :: fits(a, step(l', a).call)
    ensures var r := Loop(step, l, actions, 0);
      |r.calls| <= |actions| &&
      (forall j :: 0 <= j < |r.calls| ==> fits(actions[j], r.calls[j])) &&
      (|r.calls| < |actions| ==> r.error.Some? || r.link.endConnection)
  {
    LoopCalls(step, fits, l, actions, 0);
    var r := Loop(step, l, actions, 0);
    forall j | 0 <= j < |r.calls| ensures fits(actions[j], r.calls[j]) {
      assert actions[j] == actions[0 + j];
    }
  }

  /**
   * `execute_actions` makes at most one call per entry, in list order, each
   * built from its entry as `Target` describes, and stops early only on an
   * exception or once the connection has ended.
   */
  lemma ExecuteCalls(cfg: Config, l: Link, actions: seq<string>, net: Network)
    ensures var r := Execute(cfg, l, actions, net);
      |r.calls| <= |actions| &&
      (forall j :: 0 <= j < |r.calls| ==> Targets(actions[j], r.calls[j])) &&
      (|r.calls| < |actions| ==> r.error.Some? || r.link.endConnection)
  {
    StepperFits(cfg, net);
    LoopCallsFromStart(Stepper(cfg, net), (a: string, c: Call) => Targets(a, c), l, actions);
  }

  /** The pauses of `execute_actions`: none after the last entry, one after every other call. */
  lemma ExecuteSleeps(cfg: Config, l: Link, actions: seq<string>, net: Network)
    ensures var r := Execute(cfg, l, actions, net);
      (|r.calls| == 0 ==> r.sleeps == 0) &&
      (|r.calls| > 0 && (r.error.Some? || |r.calls| == |actions|) ==> r.sleeps == |r.calls| - 1) &&
      (|r.calls| > 0 && r.error.None? && |r.calls| < |actions| ==> r.sleeps == |r.calls|)
  {
    LoopSleeps(Stepper(cfg, net), l, actions, 0);
  }

  /** A drone whose connection has ended sends nothing. */
  lemma ExecEnded(cfg: Config, l: Link, actions: seq<string>, net: Network)
    requires l.endConnection
    ensures Execute(cfg, l, actions, net) == Executed(l, [], 0, None)
  {
  }

  // ---------------------------------------------------------------------
  // Start-up: sockets and init_commands
  // ---------------------------------------------------------------------

  /**
   * `init_drone_sockets`: the command socket always, the state socket for a
   * state listener, the video socket when video is wanted and decodable.
   */
  function OpenSockets(cfg: Config, l: Link): Link
  {
    l.(command := Open,
       state := if cfg.stateListener then Open else l.state,
       video := if cfg.videoStream && cfg.decoder then Open else l.video)
  }

  /** The start-up calls for one drone of a swarm. */
  function DroneCalls(index: nat, video: bool): seq<Call>
  {
    [Call(index, "command")] + (if video then [Call(index, "streamon")] else [])
  }

  /** The calls of a swarm's `init_commands` for indices from..n-1. */
  function InitCalls(from: nat, n: nat, video: bool): (r: seq<Call>)
    decreases n - from
  {
    if from >= n then [] else DroneCalls(from, video) + InitCalls(from + 1, n, video)
  }

  /** The calls per drone of `init_commands`. */
  function PerDrone(video: bool): nat
  {
    if video then 2 else 1
  }

  /**
   * Drone by drone in ascending order, `command` and then, with video on,
   * `streamon`.
   */
  lemma {:induction false} InitCallsOrder(from: nat, n: nat, video: bool)
    requires from <= n
    ensures var r := InitCalls(from, n, video);
      |r| == (n - from) * PerDrone(video) &&
      forall k :: 0 <= k < |r| ==>
        r[k] == Call(from + k / PerDrone(video), if k % PerDrone(video) == 0 then "command" else "streamon")
    decreases n - from
  {
    var m := PerDrone(video);
    if from < n {
      InitCallsOrder(from + 1, n, video);
      var head := DroneCalls(from, video);
      var rest := InitCalls(from + 1, n, video);
      var r := InitCalls(from, n, video);
      assert r == head + rest;
      assert |head| == m;
      forall k | 0 <= k < |r|
        ensures r[k] == Call(from + k / m, if k % m == 0 then "command" else "streamon")
      {
        if k >= m {
          assert r[k] == rest[k - m];
          DivShift(k, m);
        }
      }
    }
  }

  lemma DivShift(k: nat, m: nat)
    requires 1 <= m <= 2 && k >= m
    ensures (k - m) / m == k / m - 1 && (k - m) % m == k % m
  {
  }

  /** Calls sent one after the other until one raises. */
  function SendAll(cfg: Config, l: Link, calls: seq<Call>, net: Network): Sent
    decreases |calls|
  {
    if |calls| == 0 then Sent(l, None)
    else
      var s := SendSpec(cfg, l, calls[0].message, calls[0].index, net);
      if s.error.Some? then s else SendAll(cfg, s.link, calls[1..], net)
  }

  /** A single call, sent on its own. */
  lemma SendAllOne(cfg: Config, l: Link, c: Call, net: Network)
    ensures SendAll(cfg, l, [c], net) == SendSpec(cfg, l, c.message, c.index, net)
  {
    assert [c][1..] == [];
  }

  lemma SendAllAppend(cfg: Config, l: Link, a: seq<Call>, b: seq<Call>, net: Network)
    ensures var s := SendAll(cfg, l, a, net);
      SendAll(cfg, l, a + b, net) == if s.error.Some? then s else SendAll(cfg, s.link, b, net)
    decreases |a|
  {
    if |a| > 0 {
      assert (a + b)[1..] == a[1..] + b;
      assert (a + b)[0] == a[0];
      var s := SendSpec(cfg, l, a[0].message, a[0].index, net);
      if s.error.None? {
        SendAllAppend(cfg, s.link, a[1..], b, net);
      }
    } else {
      assert a + b == b;
    }
  }

  /**
   * `init_commands`.  A swarm sends over `range(len(self))`, fixed before the
   * first call, whether or not the drones stay reachable.  A Tello sends
   * `command` and then reads `self.front_mp`, an attribute no code assigns.
   */
  function InitCommandsSpec(cfg: Config, l: Link, net: Network): Sent
  {
    if cfg.kind == SwarmKind then SendAll(cfg, l, InitCalls(0, LenOf(cfg, l), cfg.videoStream), net)
    else
      var s := SendSpec(cfg, l, "command", 0, net);
      Sent(s.link, Some(AttributeError))
  }

  /** A Tello's `init_commands` always raises AttributeError, after at most one logged call. */
  lemma TelloInitFails(cfg: Config, l: Link, net: Network)
    requires Aligned(l) && cfg.kind == TelloKind
    ensures var r := InitCommandsSpec(cfg, l, net);
      r.error == Some(AttributeError) &&
      (r.link.allInstructions == l.allInstructions || r.link.allInstructions == l.allInstructions + ["0-command"])
  {
    SendLogs(cfg, l, "command", 0, net);
    assert Entry(0, "command") == "0-command";
  }

  /** The list `[[] for _ in range(n)]`. */
  function EmptySlots(n: nat): (r: seq<seq<string>>)
    ensures |r| == n && forall i :: 0 <= i < n ==> r[i] == []
  {
    seq(n, i => [])
  }

  /**
   * The rest of a drone's constructor once its addresses are known: the first
   * sweep is stored in the flag itself, and only a drone still connected opens
   * its sockets and sends its start-up commands.
   */
  function Startup(cfg: Config, l: Link, net: Network): Sent
  {
    var t := TestConnection(cfg, l, net);
    var swept := t.link.(endConnection := t.ended);
    if t.ended then Sent(swept, None)
    else InitCommandsSpec(cfg, OpenSockets(cfg, swept), net)
  }

  /**
   * A Tello that answers always ends its constructor with AttributeError;
   * one that does not answers opens no socket and raises nothing.
   */
  lemma TelloStartup(cfg: Config, l: Link, net: Network)
    requires Aligned(l) && cfg.kind == TelloKind
    ensures var r := Startup(cfg, l, net);
      (l.telloAddress in net.reachable ==> r.error == Some(AttributeError) && r.link.command == Open) &&
      (l.telloAddress !in net.reachable ==> r.error.None? && r.link == l.(endConnection := true))
  {
    TestConnectionResult(cfg, l, net);
    var t := TestConnection(cfg, l, net);
    if !t.ended {
      var withSockets := OpenSockets(cfg, t.link.(endConnection := false));
      TelloInitFails(cfg, withSockets, net);
      SendFlag(cfg, withSockets, "command", 0, net);
    }
  }

  /**
   * A swarm that keeps at least one drone after the first sweep starts with
   * every socket it asked for open and no exception, and sends its start-up
   * commands in order.
   */
  lemma SwarmStartup(cfg: Config, l: Link, net: Network)
    requires Aligned(l) && cfg.kind == SwarmKind
    ensures var r := Startup(cfg, l, net);
      var t := TestConnection(cfg, l, net);
      r.error.None? &&
      (t.ended ==> r.link == t.link.(endConnection := true)) &&
      (!t.ended ==> r == SendAll(cfg, OpenSockets(cfg, t.link.(endConnection := false)),
                                 InitCalls(0, |t.link.addresses|, cfg.videoStream), net))
  {
    TestConnectionResult(cfg, l, net);
    var t := TestConnection(cfg, l, net);
    if !t.ended {
      var withSockets := OpenSockets(cfg, t.link.(endConnection := false));
      SendAllOpen(cfg, withSockets, InitCalls(0, |t.link.addresses|, cfg.videoStream), net);
    }
  }

  /** Once the command socket exists it is never dropped, so sending never raises. */
  lemma {:induction false} SendAllOpen(cfg: Config, l: Link, calls: seq<Call>, net: Network)
    requires l.command != Absent
    ensures SendAll(cfg, l, calls, net).error.None?
    ensures SendAll(cfg, l, calls, net).link.command != Absent
    decreases |calls|
  {
    if |calls| > 0 {
      SendKeepsSocket(cfg, l, calls[0].message, calls[0].index, net);
      var s := SendSpec(cfg, l, calls[0].message, calls[0].index, net);
      SendAllOpen(cfg, s.link, calls[1..], net);
    }
  }

  /** Sending does not create or drop the command socket. */
  lemma SendKeepsSocket(cfg: Config, l: Link, message: string, index: int, net: Network)
    ensures (SendSpec(cfg, l, message, index, net).link.command == Absent) <==> (l.command == Absent)
  {
    var logged := if Delivered(cfg, l, index, net)
      then l.(allInstructions := l.allInstructions + [Entry(index, message)])
      else l;
    TestConnectionFrame(cfg, logged, net);
  }

  // ---------------------------------------------------------------------
  // The receive loops, one datagram at a time
  // ---------------------------------------------------------------------

  /** `xs.index(x)`: the first position holding x; None is the ValueError. */
  function FirstIndex(xs: seq<string>, x: string): (r: Option<nat>)
    ensures r.None? <==> x !in xs
    ensures r.Some? ==> r.value < |xs| && xs[r.value] == x && forall j :: 0 <= j < r.value ==> xs[j] != x
    decreases |xs|
  {
    if |xs| == 0 then None
    else if xs[0] == x then Some(0)
    else
      var rest := FirstIndex(xs[1..], x);
      if rest.None? then None else Some(rest.value + 1)
  }

  // ---------------------------------------------------------------------
  // The drone object
  // ---------------------------------------------------------------------

  class Drone {
    const config: Config
    var addresses: seq<string>
    var telloAddress: string
    var lastParameters: seq<seq<string>>
    var allInstructions: seq<string>
    var endConnection: bool
    var commandSocket: Socket
    var stateSocket: Socket
    var videoSocket: Socket
    /** The bytes of the frame being received (`all_data` of the video loop). */
    var allData: seq<byte>
    var lastFrame: Option<Picture>
    var flightMode: Option<FlightModeState>
    const videoFrames: VideoStream

    function Snapshot(): Link
      reads this
    {
      Link(addresses, telloAddress, lastParameters, allInstructions, endConnection,
                  commandSocket, stateSocket, videoSocket)
    }

    predicate Valid()
      reads this
    {
      |addresses| == |lastParameters|
    }

    /** The attributes sending leaves alone. */
    function Others(): (seq<byte>, Option<Picture>, Option<FlightModeState>)
      reads this
    {
      (allData, lastFrame, flightMode)
    }

    /**
     * `is_connected`: true until the connection is ended; for a Tello this is
     * exactly when its length is 1.
     */
    function IsConnected(): (connected: bool)
      reads this
      ensures connected <==> !endConnection
      ensures config.kind == TelloKind ==> (connected <==> LenOf(config, Snapshot()) == 1)
    {
      !endConnection
    }

    /** `take_picture`: the last decoded frame, None before any frame was decoded. */
    function TakePicture(): (picture: Option<Picture>)
      reads this
      ensures picture == lastFrame
    {
      lastFrame
    }

    /** The base constructor: no socket, empty logs, connected, an empty video queue. */
    constructor (config: Config)
      ensures this.config == config && Valid()
      ensures Snapshot() == Link([], "", [], [], false, Absent, Absent, Absent)
      ensures Others() == ([], None, None)
      ensures fresh(videoFrames) && videoFrames.queue == [] && !videoFrames.closed
    {
      this.config := config;
      addresses := [];
      telloAddress := "";
      lastParameters := [];
      allInstructions := [];
      endConnection := false;
      commandSocket := Absent;
      stateSocket := Absent;
      videoSocket := Absent;
      allData := [];
      lastFrame := None;
      flightMode := None;
      videoFrames := new VideoStream();
    }

    /** The `end_connection` setter. */
    method SetEndConnection(value: bool)
      modifies this`endConnection, this`commandSocket, this`stateSocket, this`videoSocket
      ensures Snapshot() == SetEnd(old(Snapshot()), value)
    {
      endConnection := value;
      if value {
        if commandSocket != Absent {
          commandSocket := Closed;
        }
        if stateSocket != Absent {
          stateSocket := Closed;
        }
        if videoSocket != Absent {
          videoSocket := Closed;
        }
      }
    }

    /** `test_drone_connection`: a swarm deletes unreachable drones while enumerating them. */
    method TestDroneConnection(net: Network) returns (ended: bool)
      requires Valid()
      modifies this`addresses, this`lastParameters
      ensures Valid()
      ensures Tested(Snapshot(), ended) == TestConnection(config, old(Snapshot()), net)
    {
      if config.kind == TelloKind {
        ended := telloAddress !in net.reachable;
        return;
      }
      ghost var start := Zip(addresses, lastParameters);
      var index := 0;
      while index < |addresses|
        invariant |addresses| == |lastParameters|
        invariant SweepFrom(Zip(addresses, lastParameters), index, net.reachable) == Sweep(start, net.reachable)
        decreases |addresses| - index
      {
        if addresses[index] !in net.reachable {
          ZipRemove(addresses, lastParameters, index);
          addresses := Remove(addresses, index);
          lastParameters := Remove(lastParameters, index);
        }
        index := index + 1;
      }
      ended := |addresses| == 0;
      ghost var kept := Zip(addresses, lastParameters);
      assert Addresses(kept) == addresses;
      assert Parameters(kept) == lastParameters;
    }

    /** `send(message, index)`; the exception it lets escape is returned. */
    method Send(message: string, index: int, net: Network) returns (error: Option<Exc>)
      requires Valid()
      modifies this`addresses, this`lastParameters, this`allInstructions, this`endConnection,
        this`commandSocket, this`stateSocket, this`videoSocket
      ensures Valid()
      ensures Sent(Snapshot(), error) == SendSpec(config, old(Snapshot()), message, index, net)
    {
      error := None;
      ghost var l := Snapshot();
      if commandSocket == Absent {
        error := Some(AttributeError);
      } else if !Delivered(config, Snapshot(), index, net) {
        endConnection := true;
      } else {
        allInstructions := allInstructions + [Entry(index, message)];
      }
      ghost var logged := if Delivered(config, l, index, net)
        then l.(allInstructions := l.allInstructions + [Entry(index, message)])
        else l;
      assert Snapshot().(endConnection := l.endConnection) == logged;
      var ended := TestDroneConnection(net);
      if config.kind == SwarmKind {
        SetEndConnection(ended);
      } else {
        endConnection := ended;
      }
    }

    /**
     * The index and text `execute_actions` sends for one entry: the integer
     * before the first '-', stripped from the text when below `len(self)`;
     * ValueError (no integer) means index 0 and the whole entry.
     */
    method ChooseTarget(entry: string) returns (index: int, action: string)
      ensures Call(index, action) == Target(config, Snapshot(), entry)
    {
      action := entry;
      var parsed := ParseInt(Split(action, '-')[0]);
      if parsed.Some? {
        index := parsed.value;
        if index < LenOf(config, Snapshot()) {
          action := SliceFrom(action, |IntToStr(index)| + 1);
        }
      } else {
        index := 0;
      }
    }

    /** One turn of `execute_actions`: the call made for one entry, and what `send` raised. */
    method ExecuteEntry(entry: string, net: Network) returns (ghost c: Call, error: Option<Exc>)
      requires Valid()
      modifies this`addresses, this`lastParameters, this`allInstructions, this`endConnection,
        this`commandSocket, this`stateSocket, this`videoSocket
      ensures Valid()
      ensures Stepped(c, Sent(Snapshot(), error)) == Stepper(config, net)(old(Snapshot()), entry)
    {
      var index, action := ChooseTarget(entry);
      c := Call(index, action);
      error := Send(action, index, net);
    }

    /**
     * `execute_actions(actions)`: returns the number of pauses and the
     * exception that stopped the loop.
     */
    method ExecuteActions(actions: seq<string>, net: Network) returns (sleeps: nat, error: Option<Exc>, ghost calls: seq<Call>)
      requires Valid()
      modifies this`addresses, this`lastParameters, this`allInstructions, this`endConnection,
        this`commandSocket, this`stateSocket, this`videoSocket
      ensures Valid()
      ensures Executed(Snapshot(), calls, sleeps, error) == Execute(config, old(Snapshot()), actions, net)
    {
      ghost var total := Execute(config, Snapshot(), actions, net);
      ghost var step := Stepper(config, net);
      sleeps, error, calls := 0, None, [];
      var actionIndex := 0;
      while !endConnection && actionIndex < |actions|
        invariant Valid() && actionIndex <= |actions| && error.None?
        invariant total == Resume(calls, sleeps, Loop(step, Snapshot(), actions, actionIndex))
        decreases |actions| - actionIndex
      {
        ghost var before := Snapshot();
        ghost var c;
        c, error := ExecuteEntry(actions[actionIndex], net);
        if error.Some? {
          LoopRaise(step, before, actions, actionIndex, calls, sleeps);
          calls := calls + [c];
          return;
        }
        LoopAdvance(step, before, actions, actionIndex, calls, sleeps);
        calls := calls + [c];
        actionIndex := actionIndex + 1;
        if actionIndex < |actions| {
          sleeps := sleeps + 1;
        }
      }
      LoopDone(step, Snapshot(), actions, actionIndex, calls, sleeps);
    }

    /** `init_drone_sockets`. */
    method InitDroneSockets()
      modifies this`commandSocket, this`stateSocket, this`videoSocket
      ensures Snapshot() == OpenSockets(config, old(Snapshot()))
    {
      commandSocket := Open;
      if config.stateListener {
        stateSocket := Open;
      }
      if config.videoStream && config.decoder {
        videoSocket := Open;
      }
    }

    /** `init_commands`. */
    method InitCommands(net: Network) returns (error: Option<Exc>)
      requires Valid()
      modifies this`addresses, this`lastParameters, this`allInstructions, this`endConnection,
        this`commandSocket, this`stateSocket, this`videoSocket
      ensures Valid()
      ensures Sent(Snapshot(), error) == InitCommandsSpec(config, old(Snapshot()), net)
    {
      if config.kind == TelloKind {
        error := Send("command", 0, net);
        // `if self.front_mp:` reads an attribute that was never assigned
        error := Some(AttributeError);
        return;
      }
      var n := LenOf(config, Snapshot());
      ghost var total := InitCommandsSpec(config, Snapshot(), net);
      var index := 0;
      error := None;
      while index < n
        invariant Valid() && index <= n && error.None?
        invariant total == SendAll(config, Snapshot(), InitCalls(index, n, config.videoStream), net)
        decreases n - index
      {
        SendAllAppend(config, Snapshot(), DroneCalls(index, config.videoStream), InitCalls(index + 1, n, config.videoStream), net);
        error := InitDrone(index, net);
        if error.Some? {
          return;
        }
        index := index + 1;
      }
    }

    /** One turn of a swarm's `init_commands`: `command`, then `streamon` with video on. */
    method InitDrone(index: nat, net: Network) returns (error: Option<Exc>)
      requires Valid()
      modifies this`addresses, this`lastParameters, this`allInstructions, this`endConnection,
        this`commandSocket, this`stateSocket, this`videoSocket
      ensures Valid()
      ensures Sent(Snapshot(), error) == SendAll(config, old(Snapshot()), DroneCalls(index, config.videoStream), net)
    {
      ghost var here := Snapshot();
      ghost var first := Call(index, "command");
      SendAllOne(config, here, first, net);
      error := Send("command", index, net);
      if !config.videoStream {
        assert DroneCalls(index, config.videoStream) == [first];
        return;
      }
      ghost var second := Call(index, "streamon");
      assert DroneCalls(index, config.videoStream) == [first] + [second];
      SendAllAppend(config, here, [first], [second], net);
      if error.Some? {
        return;
      }
      ghost var mid := Snapshot();
      SendAllOne(config, mid, second, net);
      error := Send("streamon", index, net);
    }

    /**
     * The rest of a swarm's constructor: without addresses it takes the
     * discovered drones, and raises InterruptedError when there are none.
     */
    method ConnectSwarm(given: Option<seq<string>>, discovered: seq<string>, net: Network) returns (error: Option<Exc>)
      requires Valid() && config.kind == SwarmKind
      modifies this`addresses, this`lastParameters, this`allInstructions, this`endConnection,
        this`commandSocket, this`stateSocket, this`videoSocket
      ensures Valid()
      ensures given.None? && discovered == [] ==> error == Some(InterruptedError) && Snapshot() == old(Snapshot())
      ensures !(given.None? && discovered == []) ==>
        var chosen := if given.Some? then given.value else discovered;
        Sent(Snapshot(), error) ==
          Startup(config, old(Snapshot()).(addresses := chosen, lastParameters := EmptySlots(|chosen|)), net)
    {
      var chosen: seq<string>;
      if given.None? {
        if discovered == [] {
          return Some(InterruptedError);
        }
        chosen := discovered;
      } else {
        chosen := given.value;
      }
      addresses := chosen;
      lastParameters := EmptySlots(|addresses|);
      error := Start(net);
    }

    /**
     * The rest of a Tello's constructor: without an address it takes the first
     * discovered drone, and raises InterruptedError when there is none.
     */
    method ConnectTello(given: Option<string>, discovered: seq<string>, net: Network) returns (error: Option<Exc>)
      requires Valid() && config.kind == TelloKind
      modifies this`telloAddress, this`addresses, this`lastParameters, this`allInstructions, this`endConnection,
        this`commandSocket, this`stateSocket, this`videoSocket
      ensures Valid()
      ensures given.None? && discovered == [] ==> error == Some(InterruptedError) && Snapshot() == old(Snapshot())
      ensures !(given.None? && discovered == []) ==>
        var chosen := if given.Some? then given.value else discovered[0];
        Sent(Snapshot(), error) == Startup(config, old(Snapshot()).(telloAddress := chosen), net)
    {
      var chosen: string;
      if given.None? {
        if discovered == [] {
          return Some(InterruptedError);
        }
        chosen := discovered[0];
      } else {
        chosen := given.value;
      }
      telloAddress := chosen;
      error := Start(net);
    }

    /** The constructor's first sweep, then sockets and start-up commands if still connected. */
    method Start(net: Network) returns (error: Option<Exc>)
      requires Valid()
      modifies this`addresses, this`lastParameters, this`allInstructions, this`endConnection,
        this`commandSocket, this`stateSocket, this`videoSocket
      ensures Valid()
      ensures Sent(Snapshot(), error) == Startup(config, old(Snapshot()), net)
    {
      TestConnectionResult(config, Snapshot(), net);
      var ended := TestDroneConnection(net);
      endConnection := ended;
      error := None;
      if !endConnection {
        InitDroneSockets();
        error := InitCommands(net);
      }
    }

    /**
     * One step of `receive_state`.  `text` is the datagram decoded as UTF-8,
     * None when it is not valid UTF-8 (a UnicodeDecodeError the loop
     * swallows).  A swarm stores the parsed fields in the slot of the first
     * drone with the sender's address (an unknown sender raises ValueError,
     * which the loop swallows too); a Tello only binds them to its local
     * variable.  Returns what was parsed.
     */
    method ReceiveState(ip: string, text: Option<string>) returns (parsed: Option<seq<string>>)
      requires Valid()
      modifies this`lastParameters
      ensures Valid()
      ensures text.None? ==> parsed.None? && lastParameters == old(lastParameters)
      ensures config.kind == TelloKind ==>
        lastParameters == old(lastParameters) &&
        (text.Some? ==> parsed == Some(ParseTelemetry(text.value)))
      ensures config.kind == SwarmKind && text.Some? ==>
        var k := FirstIndex(addresses, ip);
        (k.None? ==> parsed.None? && lastParameters == old(lastParameters)) &&
        (k.Some? ==> parsed == Some(ParseTelemetry(text.value)) &&
                     lastParameters == old(lastParameters)[k.value := ParseTelemetry(text.value)])
    {
      if config.kind == TelloKind {
        if text.None? {
          return None;
        }
        parsed := Some(ParseTelemetry(text.value));
        return;
      }
      var droneIndex := FirstIndex(addresses, ip);
      if droneIndex.None? || text.None? {
        return None;
      }
      var fields := ParseTelemetry(text.value);
      lastParameters := lastParameters[droneIndex.value := fields];
      parsed := Some(fields);
    }

    /**
     * One step of `receive_frame`: the datagram joins `all_data` and, without
     * its header, the video queue; a datagram shorter or longer than 1460 bytes
     * ends the frame, which is decoded (when a decoder is present: the last
     * decoded picture becomes `last_frame`) and `all_data` restarts empty.
     * The video queue is not reset.  Returns the frame handed off, if any.
     */
    method ReceiveFrame(datagram: seq<byte>, decoded: seq<Picture>) returns (handOff: Option<seq<byte>>)
      modifies this`allData, this`lastFrame, videoFrames
      ensures Gathered(allData, handOff) == FrameStep(old(allData), datagram)
      ensures videoFrames.queue == old(videoFrames.queue) + [Payload(datagram)]
      ensures videoFrames.closed == old(videoFrames.closed)
      ensures lastFrame == if handOff.Some? && config.decoder && |decoded| > 0 then Some(decoded[|decoded| - 1])
                           else old(lastFrame)
    {
      allData := allData + datagram;
      videoFrames.AddData(datagram);
      handOff := None;
      if |datagram| != DATAGRAM_SIZE {
        handOff := Some(allData);
        if config.decoder {
          var i := 0;
          while i < |decoded|
            invariant 0 <= i <= |decoded|
            invariant lastFrame == if i > 0 then Some(decoded[i - 1]) else old(lastFrame)
            modifies this`lastFrame
          {
            lastFrame := Some(decoded[i]);
            i := i + 1;
          }
        }
        allData := [];
      }
    }
  }
}
