/**
 * The flight modes: the `back_to_base` guard that brackets each of them,
 * the key loop of the reactive mode, the line loop of the open pipe, the
 * two action-list modes, the integer skeleton of the picture mission, and
 * `init_flight_mode` / `start_mission`, which build and run them.
 *
 * What a mode does is specified by functions over `Run`, for any way the
 * drone carries out one `execute_actions` call; the methods run the modes on
 * a `Drone` and are proved to follow those functions with the drone's own
 * `execute_actions`.
 */
module FlightModes {
  import opened PyBase
  import opened Drones
  import Toolbox

  // ---------------------------------------------------------------------
  // What a mode has done so far
  // ---------------------------------------------------------------------

  /**
   * The drone's state, the pictures the mode collected (`all_images`), the
   * lists handed to `execute_actions`, in order, and the exception that
   * stopped the mode, if any.
   */
  datatype Run = Run(link: Link, images: seq<Option<Picture>>, batches: seq<seq<string>>, error: Option<Exc>)

  /** A mode either returns (possibly raising) or waits forever for input. */
  datatype Stop = Done(run: Run) | Blocked(run: Run)

  /** One `execute_actions(batch)` call as the drone carries it out. */
  function Executor(cfg: Config, net: Network): (Link, seq<string>) -> Executed
  {
    (l: Link, batch: seq<string>) => Execute(cfg, l, batch, net)
  }

  /** `exec` is how a drone with configuration `cfg` carries out `execute_actions` on `net`. */
  ghost predicate Carries(exec: (Link, seq<string>) -> Executed, cfg: Config, net: Network)
  {
    forall l: Link, batch: seq<string> {:trigger Execute(cfg, l, batch, net)} :: exec(l, batch) == Execute(cfg, l, batch, net)
  }

  lemma ExecutorCarries(cfg: Config, net: Network)
    ensures Carries(Executor(cfg, net), cfg, net)
  {
  }

  /** `execute_actions(batch)`; once an exception is raised nothing more runs. */
  function Act(exec: (Link, seq<string>) -> Executed, r: Run, batch: seq<string>): Run
  {
    if r.error.Some? then r
    else
      var e := exec(r.link, batch);
      Run(e.link, r.images, r.batches + [batch], e.error)
  }

  /** Several `execute_actions` calls, one after the other. */
  function ActAll(exec: (Link, seq<string>) -> Executed, r: Run, batches: seq<seq<string>>): Run
    decreases |batches|
  {
    if |batches| == 0 then r else ActAll(exec, Act(exec, r, batches[0]), batches[1..])
  }

  /** `all_images.append(swarm.take_picture())`: the picture is the drone's last frame. */
  function Snap(r: Run, frame: Option<Picture>): Run
  {
    if r.error.Some? then r else r.(images := r.images + [frame])
  }

  /** `execute_actions([f'{index}-{command}'])` for every index in `range(n)`. */
  function EachDrone(n: nat, command: string): (r: seq<seq<string>>)
    ensures |r| == n && forall i :: 0 <= i < n ==> r[i] == [Entry(i, command)]
  {
    seq(n, i => [Entry(i, command)])
  }

  /**
   * On a fleet of at least `n` drones, the i-th batch of `EachDrone` is one
   * entry that `execute_actions` sends as the bare command to drone i.
   */
  lemma EachDroneTargets(cfg: Config, l: Link, n: nat, command: string)
    requires n <= LenOf(cfg, l)
    ensures forall i :: 0 <= i < n ==>
      |EachDrone(n, command)[i]| == 1 && Target(cfg, l, EachDrone(n, command)[i][0]) == Call(i, command)
  {
    forall i | 0 <= i < n
      ensures |EachDrone(n, command)[i]| == 1 && Target(cfg, l, EachDrone(n, command)[i][0]) == Call(i, command)
    {
      TargetIndexed(cfg, l, i, command);
    }
  }

  /** The batches and pictures of `q` continue those of `r`. */
  predicate Extends(r: Run, q: Run)
  {
    |r.batches| <= |q.batches| && q.batches[..|r.batches|] == r.batches &&
    |r.images| <= |q.images| && q.images[..|r.images|] == r.images
  }

  lemma ExtendsTrans(r: Run, q: Run, s: Run)
    requires Extends(r, q) && Extends(q, s)
    ensures Extends(r, s)
  {
    assert s.batches[..|r.batches|] == s.batches[..|q.batches|][..|r.batches|];
    assert s.images[..|r.images|] == s.images[..|q.images|][..|r.images|];
  }

  /**
   * A sequence of calls adds at most the batches given, in order, and no
   * picture; when it raises nothing, it adds all of them.
   */
  lemma {:induction false} ActAllShape(exec: (Link, seq<string>) -> Executed, r: Run, batches: seq<seq<string>>)
    ensures var q := ActAll(exec, r, batches);
      Extends(r, q) && q.images == r.images &&
      |q.batches| <= |r.batches| + |batches| &&
      (forall j :: |r.batches| <= j < |q.batches| ==> q.batches[j] == batches[j - |r.batches|]) &&
      (q.error.None? ==> r.error.None? && q.batches == r.batches + batches)
    decreases |batches|
  {
    if |batches| > 0 {
      var a := Act(exec, r, batches[0]);
      ActAllShape(exec, a, batches[1..]);
      var q := ActAll(exec, r, batches);
      if r.error.Some? {
        ActAllRaised(exec, r, batches);
      } else {
        assert a.batches == r.batches + [batches[0]];
        assert q.batches[..|r.batches|] == q.batches[..|a.batches|][..|r.batches|];
        forall j | |r.batches| <= j < |q.batches| ensures q.batches[j] == batches[j - |r.batches|] {
          if j == |r.batches| {
            assert q.batches[j] == q.batches[..|a.batches|][j];
          } else {
            assert batches[j - |r.batches|] == batches[1..][j - |a.batches|];
          }
        }
        if q.error.None? {
          assert batches == [batches[0]] + batches[1..];
        }
      }
    } else {
      assert r.batches[..|r.batches|] == r.batches;
      assert r.images[..|r.images|] == r.images;
    }
  }

  /** Once an exception is raised, further calls change nothing. */
  lemma {:induction false} ActAllRaised(exec: (Link, seq<string>) -> Executed, r: Run, batches: seq<seq<string>>)
    requires r.error.Some?
    ensures ActAll(exec, r, batches) == r
    decreases |batches|
  {
    if |batches| > 0 {
      ActAllRaised(exec, r, batches[1..]);
    }
  }

  // ---------------------------------------------------------------------
  // back_to_base
  // ---------------------------------------------------------------------

  /**
   * What `back_to_base` does after the body returns: with `back_to_base` set
   * it replays the reversal of the log (an exception of the reversal or of
   * the replay escapes), then it ends the connection.
   */
  function Finish(cfg: Config, exec: (Link, seq<string>) -> Executed, r: Run): Run
  {
    if r.error.Some? then r
    else
      var home :=
        if !cfg.backToBase then r
        else match Toolbox.ReverseAll(r.link.allInstructions)
          case Err(e) => r.(error := Some(e))
          case Ok(back) => Act(exec, r, back);
      if home.error.Some? then home else home.(link := SetEnd(home.link, true))
  }

  /** `back_to_base` around a body: the body runs only while the connection is up. */
  function Guarded(cfg: Config, exec: (Link, seq<string>) -> Executed, r: Run, body: Stop): Stop
  {
    if r.link.endConnection then Done(r)
    else match body
      case Blocked(_) => body
      case Done(b) => Done(Finish(cfg, exec, b))
  }

  /** A mode started once the connection has ended does nothing at all. */
  lemma GuardedEnded(cfg: Config, exec: (Link, seq<string>) -> Executed, r: Run, body: Stop)
    requires r.link.endConnection
    ensures Guarded(cfg, exec, r, body) == Done(r)
  {
  }

  /**
   * A body that returns without an exception is followed by at most one more
   * call, the replay of the reversed log, made exactly when `back_to_base`
   * is set and the log can be reversed; the connection is ended afterwards
   * unless something raised.
   */
  lemma GuardedReturns(cfg: Config, exec: (Link, seq<string>) -> Executed, r: Run, b: Run)
    requires !r.link.endConnection && b.error.None?
    ensures Guarded(cfg, exec, r, Done(b)).Done?
    ensures var q := Guarded(cfg, exec, r, Done(b)).run;
      q.images == b.images &&
      (q.error.None? ==> q.link.endConnection && q.link.command != Open && q.link.state != Open && q.link.video != Open) &&
      (!cfg.backToBase ==> q == b.(link := SetEnd(b.link, true))) &&
      (cfg.backToBase && Toolbox.ReverseAll(b.link.allInstructions).Err? ==>
         q == b.(error := Some(Toolbox.ReverseAll(b.link.allInstructions).error))) &&
      (cfg.backToBase && Toolbox.ReverseAll(b.link.allInstructions).Ok? ==>
         q.batches == b.batches + [Toolbox.ReverseAll(b.link.allInstructions).value])
  {
  }

  /** A mode that returns without an exception leaves the connection ended. */
  lemma GuardedEnds(cfg: Config, exec: (Link, seq<string>) -> Executed, r: Run, body: Stop)
    requires Guarded(cfg, exec, r, body).Done? && Guarded(cfg, exec, r, body).run.error.None?
    ensures Guarded(cfg, exec, r, body).run.link.endConnection
  {
    if !r.link.endConnection {
      SetEndEffect(Finish(cfg, exec, body.run).link, true);
    }
  }

  // ---------------------------------------------------------------------
  // ReactiveMode.start
  // ---------------------------------------------------------------------

  /** Ctrl+Z and Ctrl+C. */
  const EXIT_KEYS: set<string> := {"\U{1a}", "\U{3}"}

  /** The first characters of escape sequences, ignored. */
  const ESCAPE_KEYS: set<string> := {"[", "\U{1b}"}

  /**
   * The exit keys: every drone lands, the connection ends, and then the
   * command socket's `close()` is called, which raises AttributeError when
   * there is no socket.
   */
  function Land(cfg: Config, exec: (Link, seq<string>) -> Executed, r: Run): Run
  {
    var landed := ActAll(exec, r, EachDrone(LenOf(cfg, r.link), "land"));
    if landed.error.Some? then landed
    else
      var ended := landed.(link := SetEnd(landed.link, true));
      if ended.link.command == Absent then ended.(error := Some(AttributeError)) else ended
  }

  /**
   * The key loop, while the connection is up: exit keys land and stop,
   * escape characters are skipped, `p` takes a picture, a key with a
   * command sends it to every drone, and any other key does nothing.  With
   * no key left, `getch` waits for ever.
   */
  function ReactiveKeys(cfg: Config, exec: (Link, seq<string>) -> Executed, r: Run, frame: Option<Picture>,
                        keys: seq<string>): Stop
    decreases |keys|
  {
    if r.error.Some? || r.link.endConnection then Done(r)
    else if |keys| == 0 then Blocked(r)
    else
      if keys[0] in EXIT_KEYS then Done(Land(cfg, exec, r))
      else ReactiveKeys(cfg, exec, KeyStep(cfg, exec, r, frame, keys[0]), frame, keys[1..])
  }

  /** Any key but an exit key. */
  function KeyStep(cfg: Config, exec: (Link, seq<string>) -> Executed, r: Run, frame: Option<Picture>, key: string): Run
  {
    if key in ESCAPE_KEYS then r
    else if key == "p" then Snap(r, frame)
    else
      var command := Toolbox.CommandFromKey(Toolbox.KeyText(key));
      if command.Some? then ActAll(exec, r, EachDrone(LenOf(cfg, r.link), command.value)) else r
  }

  /** `ReactiveMode.start` under its guard. */
  function ReactiveStart(cfg: Config, exec: (Link, seq<string>) -> Executed, r: Run, frame: Option<Picture>,
                    keys: seq<string>): Stop
  {
    Guarded(cfg, exec, r, ReactiveKeys(cfg, exec, r, frame, keys))
  }

  /** The only calls the reactive mode makes: one entry, a landing or a key's command, for one drone. */
  ghost predicate ReactiveBatch(b: seq<string>)
  {
    |b| == 1 && exists i: nat, c: string :: (c == "land" || c in Toolbox.KEY_COMMANDS) && b[0] == Entry(i, c)
  }

  /** Every call of `EachDrone` for a landing or a key's command is a reactive one. */
  lemma EachDroneReactive(n: nat, c: string)
    requires c == "land" || c in Toolbox.KEY_COMMANDS
    ensures forall j :: 0 <= j < n ==> ReactiveBatch(EachDrone(n, c)[j])
  {
    forall j | 0 <= j < n ensures ReactiveBatch(EachDrone(n, c)[j]) {
      var i: nat := j;
      assert EachDrone(n, c)[j][0] == Entry(i, c);
    }
  }

  /** The calls and pictures a step adds are reactive ones and copies of the frame. */
  ghost predicate ReactiveSince(r: Run, q: Run, frame: Option<Picture>)
  {
    Extends(r, q) &&
    (forall j :: |r.batches| <= j < |q.batches| ==> ReactiveBatch(q.batches[j])) &&
    (forall j :: |r.images| <= j < |q.images| ==> q.images[j] == frame)
  }

  lemma ReactiveSinceTrans(r: Run, q: Run, s: Run, frame: Option<Picture>)
    requires ReactiveSince(r, q, frame) && ReactiveSince(q, s, frame)
    ensures ReactiveSince(r, s, frame)
  {
    ExtendsTrans(r, q, s);
    forall j | |r.batches| <= j < |s.batches| ensures ReactiveBatch(s.batches[j]) {
      if j < |q.batches| {
        assert s.batches[j] == s.batches[..|q.batches|][j];
      }
    }
    forall j | |r.images| <= j < |s.images| ensures s.images[j] == frame {
      if j < |q.images| {
        assert s.images[j] == s.images[..|q.images|][j];
      }
    }
  }

  lemma EachDroneSince(exec: (Link, seq<string>) -> Executed, r: Run, frame: Option<Picture>, n: nat, c: string)
    requires c == "land" || c in Toolbox.KEY_COMMANDS
    ensures ReactiveSince(r, ActAll(exec, r, EachDrone(n, c)), frame)
  {
    ActAllShape(exec, r, EachDrone(n, c));
    EachDroneReactive(n, c);
  }

  /**
   * The reactive mode sends nothing but single-entry lists `"<i>-<command>"`
   * whose command is a landing or the command of a key, and every picture it
   * collects is the drone's last frame.
   */
  lemma {:induction false} ReactiveSends(cfg: Config, exec: (Link, seq<string>) -> Executed, r: Run,
                                         frame: Option<Picture>, keys: seq<string>)
    ensures ReactiveSince(r, ReactiveKeys(cfg, exec, r, frame, keys).run, frame)
    decreases |keys|
  {
    var q := ReactiveKeys(cfg, exec, r, frame, keys).run;
    assert r.batches[..|r.batches|] == r.batches && r.images[..|r.images|] == r.images;
    if r.error.Some? || r.link.endConnection || |keys| == 0 {
    } else {
      var key := keys[0];
      if key in EXIT_KEYS {
        var n := LenOf(cfg, r.link);
        EachDroneSince(exec, r, frame, n, "land");
        var landed := ActAll(exec, r, EachDrone(n, "land"));
        assert ReactiveSince(landed, q, frame) by {
          assert q.batches == landed.batches && q.images == landed.images;
          assert landed.batches[..|landed.batches|] == landed.batches;
          assert landed.images[..|landed.images|] == landed.images;
        }
        ReactiveSinceTrans(r, landed, q, frame);
      } else {
        var next := KeyStep(cfg, exec, r, frame, key);
        KeyStepSince(cfg, exec, r, frame, key);
        ReactiveSends(cfg, exec, next, frame, keys[1..]);
        ReactiveSinceTrans(r, next, q, frame);
      }
    }
  }

  lemma KeyStepSince(cfg: Config, exec: (Link, seq<string>) -> Executed, r: Run, frame: Option<Picture>, key: string)
    ensures ReactiveSince(r, KeyStep(cfg, exec, r, frame, key), frame)
  {
    var next := KeyStep(cfg, exec, r, frame, key);
    assert r.batches[..|r.batches|] == r.batches && r.images[..|r.images|] == r.images;
    if key in ESCAPE_KEYS {
    } else if key == "p" {
      assert next.images[..|r.images|] == r.images;
    } else {
      var command := Toolbox.CommandFromKey(Toolbox.KeyText(key));
      if command.Some? {
        Toolbox.KeyCommandsKnown(Toolbox.KeyText(key));
        EachDroneSince(exec, r, frame, LenOf(cfg, r.link), command.value);
      }
    }
  }

  /**
   * An exit key on a connected drone lands every drone, in ascending order,
   * with one call each, and then ends the connection; a drone without a
   * command socket then raises AttributeError.
   */
  lemma ReactiveExit(cfg: Config, exec: (Link, seq<string>) -> Executed, r: Run, frame: Option<Picture>,
                     key: string, keys: seq<string>)
    requires r.error.None? && !r.link.endConnection && key in EXIT_KEYS
    ensures var s := ReactiveKeys(cfg, exec, r, frame, [key] + keys);
      var landed := ActAll(exec, r, EachDrone(LenOf(cfg, r.link), "land"));
      s.Done? && s.run.images == r.images &&
      (s.run.error.None? ==> s.run.batches == r.batches + EachDrone(LenOf(cfg, r.link), "land") &&
                             s.run.link == SetEnd(landed.link, true)) &&
      (landed.error.None? && landed.link.command == Absent ==> s.run.error == Some(AttributeError))
  {
    ActAllShape(exec, r, EachDrone(LenOf(cfg, r.link), "land"));
  }

  /** Escape characters are skipped, and `p` adds exactly one picture, the last frame. */
  lemma ReactiveSkips(cfg: Config, exec: (Link, seq<string>) -> Executed, r: Run, frame: Option<Picture>,
                      key: string, keys: seq<string>)
    requires r.error.None? && !r.link.endConnection
    ensures key in ESCAPE_KEYS ==> ReactiveKeys(cfg, exec, r, frame, [key] + keys) == ReactiveKeys(cfg, exec, r, frame, keys)
    ensures key == "p" ==>
      ReactiveKeys(cfg, exec, r, frame, [key] + keys) == ReactiveKeys(cfg, exec, r.(images := r.images + [frame]), frame, keys)
  {
    assert ([key] + keys)[1..] == keys;
  }

  /**
   * A key with a command sends `"<i>-<command>"` to every drone, in ascending
   * order, before the next key; a key without one sends nothing.
   */
  lemma ReactiveCommand(cfg: Config, exec: (Link, seq<string>) -> Executed, r: Run, frame: Option<Picture>,
                        key: string, keys: seq<string>)
    requires r.error.None? && !r.link.endConnection
    requires key !in EXIT_KEYS && key !in ESCAPE_KEYS && key != "p"
    ensures var command := Toolbox.CommandFromKey(Toolbox.KeyText(key));
      command.Some? ==>
        var sent := ActAll(exec, r, EachDrone(LenOf(cfg, r.link), command.value));
        ReactiveKeys(cfg, exec, r, frame, [key] + keys) == ReactiveKeys(cfg, exec, sent, frame, keys) &&
        (sent.error.None? ==> sent.batches == r.batches + EachDrone(LenOf(cfg, r.link), command.value))
    ensures Toolbox.CommandFromKey(Toolbox.KeyText(key)).None? ==>
      ReactiveKeys(cfg, exec, r, frame, [key] + keys) == ReactiveKeys(cfg, exec, r, frame, keys)
  {
    assert ([key] + keys)[1..] == keys;
    var command := Toolbox.CommandFromKey(Toolbox.KeyText(key));
    if command.Some? {
      ActAllShape(exec, r, EachDrone(LenOf(cfg, r.link), command.value));
    }
  }

  // ---------------------------------------------------------------------
  // OpenPipeMode.start
  // ---------------------------------------------------------------------

  /**
   * The line loop, while the connection is up: `exit` stops, `p` takes a
   * picture, an empty line is skipped and any other line is executed as it
   * is.  The end of the input (EOFError) ends the mode normally.
   */
  function PipeLines(exec: (Link, seq<string>) -> Executed, r: Run, frame: Option<Picture>, lines: seq<string>): Run
    decreases |lines|
  {
    if r.error.Some? || r.link.endConnection || |lines| == 0 || lines[0] == "exit" then r
    else PipeLines(exec, PipeStep(exec, r, frame, lines[0]), frame, lines[1..])
  }

  /** Any line but `exit`. */
  function PipeStep(exec: (Link, seq<string>) -> Executed, r: Run, frame: Option<Picture>, line: string): Run
  {
    if line == "p" then Snap(r, frame)
    else if line == "" then r
    else Act(exec, r, [line])
  }

  /** `OpenPipeMode.start` under its guard. */
  function OpenPipeStart(cfg: Config, exec: (Link, seq<string>) -> Executed, r: Run, frame: Option<Picture>,
                    lines: seq<string>): Stop
  {
    Guarded(cfg, exec, r, Done(PipeLines(exec, r, frame, lines)))
  }

  /** The lines the pipe executes: up to the first `exit`, all but `p` and empty ones. */
  function PipeCommands(lines: seq<string>): (r: seq<string>)
    ensures forall j :: 0 <= j < |r| ==> r[j] in lines && r[j] !in {"", "p", "exit"}
    decreases |lines|
  {
    if |lines| == 0 || lines[0] == "exit" then []
    else if lines[0] == "p" || lines[0] == "" then PipeCommands(lines[1..])
    else [lines[0]] + PipeCommands(lines[1..])
  }

  /** The number of `p` lines before the first `exit`. */
  function PipePictures(lines: seq<string>): nat
    decreases |lines|
  {
    if |lines| == 0 || lines[0] == "exit" then 0
    else (if lines[0] == "p" then 1 else 0) + PipePictures(lines[1..])
  }

  /** One single-entry list per line. */
  function Singles(xs: seq<string>): (r: seq<seq<string>>)
    ensures |r| == |xs| && forall j :: 0 <= j < |xs| ==> r[j] == [xs[j]]
  {
    seq(|xs|, j requires 0 <= j < |xs| => [xs[j]])
  }

  /**
   * When the pipe ends with the connection still up and nothing raised, it
   * executed every line up to the first `exit` except `p` and the empty
   * ones, each alone and in order, and took one picture (the last frame) per
   * `p`.
   */
  lemma PipeComplete(exec: (Link, seq<string>) -> Executed, r: Run, frame: Option<Picture>, lines: seq<string>)
    requires r.error.None?
    ensures var q := PipeLines(exec, r, frame, lines);
      q.error.None? && !q.link.endConnection ==>
        q.batches == r.batches + Singles(PipeCommands(lines)) &&
        q.images == r.images + seq(PipePictures(lines), _ => frame)
  {
    PipeBatches(exec, r, frame, lines);
    PipeImages(exec, r, frame, lines);
  }

  lemma {:induction false} PipeBatches(exec: (Link, seq<string>) -> Executed, r: Run, frame: Option<Picture>,
                                       lines: seq<string>)
    requires r.error.None?
    ensures var q := PipeLines(exec, r, frame, lines);
      q.error.None? && !q.link.endConnection ==> q.batches == r.batches + Singles(PipeCommands(lines))
    decreases |lines|
  {
    if !(r.link.endConnection || |lines| == 0 || lines[0] == "exit") {
      var s := PipeStep(exec, r, frame, lines[0]);
      PipeLinesStep(exec, r, frame, lines);
      if s.error.Some? {
        PipeRaised(exec, s, frame, lines[1..]);
      } else {
        PipeBatches(exec, s, frame, lines[1..]);
        PipeStepBatches(exec, r, frame, lines[0]);
        PipeCommandsCons(lines);
        SinglesAppend(PipeHead(lines[0]), PipeCommands(lines[1..]));
        var q := PipeLines(exec, s, frame, lines[1..]);
        var head, tail := Singles(PipeHead(lines[0])), Singles(PipeCommands(lines[1..]));
        if q.error.None? && !q.link.endConnection {
          calc {
            q.batches;
            s.batches + tail;
            r.batches + head + tail;
            r.batches + Singles(PipeCommands(lines));
          }
        }
      }
    }
  }

  /** A line other than `exit`, while the connection is up, is one step of the loop. */
  lemma PipeLinesStep(exec: (Link, seq<string>) -> Executed, r: Run, frame: Option<Picture>, lines: seq<string>)
    requires r.error.None? && !r.link.endConnection && |lines| > 0 && lines[0] != "exit"
    ensures PipeLines(exec, r, frame, lines) == PipeLines(exec, PipeStep(exec, r, frame, lines[0]), frame, lines[1..])
  {
  }

  /** The commands one line contributes: none for `p` and an empty line, else the line. */
  function PipeHead(line: string): seq<string>
  {
    if line == "p" || line == "" then [] else [line]
  }

  lemma PipeCommandsCons(lines: seq<string>)
    requires |lines| > 0 && lines[0] != "exit"
    ensures PipeCommands(lines) == PipeHead(lines[0]) + PipeCommands(lines[1..])
  {
  }

  /** One line adds its own single-entry batch, unless it is `p` or empty. */
  lemma PipeStepBatches(exec: (Link, seq<string>) -> Executed, r: Run, frame: Option<Picture>, line: string)
    requires r.error.None?
    ensures PipeStep(exec, r, frame, line).batches == r.batches + Singles(PipeHead(line))
  {
    if line != "p" && line != "" {
      assert Singles([line]) == [[line]];
    }
  }

  lemma SinglesAppend(xs: seq<string>, ys: seq<string>)
    ensures Singles(xs + ys) == Singles(xs) + Singles(ys)
  {
    var a := Singles(xs + ys);
    var b := Singles(xs) + Singles(ys);
    forall j | 0 <= j < |a| ensures a[j] == b[j] {
      if j >= |xs| {
        assert (xs + ys)[j] == ys[j - |xs|];
      }
    }
  }

  lemma {:induction false} PipeImages(exec: (Link, seq<string>) -> Executed, r: Run, frame: Option<Picture>,
                                      lines: seq<string>)
    requires r.error.None?
    ensures var q := PipeLines(exec, r, frame, lines);
      q.error.None? && !q.link.endConnection ==> q.images == r.images + seq(PipePictures(lines), _ => frame)
    decreases |lines|
  {
    if r.link.endConnection || |lines| == 0 || lines[0] == "exit" {
      assert seq(0, _ => frame) == [];
    } else {
      var s := PipeStep(exec, r, frame, lines[0]);
      PipeLinesStep(exec, r, frame, lines);
      if s.error.Some? {
        PipeRaised(exec, s, frame, lines[1..]);
      } else {
        PipeImages(exec, s, frame, lines[1..]);
        if lines[0] == "p" {
          CopiesCons(frame, PipePictures(lines[1..]));
        }
      }
    }
  }

  lemma CopiesCons<T>(x: T, n: nat)
    ensures [x] + seq(n, _ => x) == seq(n + 1, _ => x)
  {
  }

  /** Once an exception is raised the pipe stops where it is. */
  lemma PipeRaised(exec: (Link, seq<string>) -> Executed, r: Run, frame: Option<Picture>, lines: seq<string>)
    requires r.error.Some?
    ensures PipeLines(exec, r, frame, lines) == r
  {
  }

  /**
   * Whatever happens, the pipe executes only lines of its input other than
   * `exit`, `p` and the empty line, each alone, and collects only the last
   * frame.
   */
  lemma {:induction false} PipeSends(exec: (Link, seq<string>) -> Executed, r: Run, frame: Option<Picture>,
                                     lines: seq<string>)
    ensures var q := PipeLines(exec, r, frame, lines);
      Extends(r, q) &&
      (forall j :: |r.batches| <= j < |q.batches| ==>
         |q.batches[j]| == 1 && q.batches[j][0] in lines && q.batches[j][0] !in {"", "p", "exit"}) &&
      (forall j :: |r.images| <= j < |q.images| ==> q.images[j] == frame)
    decreases |lines|
  {
    var q := PipeLines(exec, r, frame, lines);
    assert r.batches[..|r.batches|] == r.batches && r.images[..|r.images|] == r.images;
    if r.error.Some? || r.link.endConnection || |lines| == 0 || lines[0] == "exit" {
    } else {
      var s := PipeStep(exec, r, frame, lines[0]);
      PipeSends(exec, s, frame, lines[1..]);
      assert s.batches[..|r.batches|] == r.batches && s.images[..|r.images|] == r.images;
      ExtendsTrans(r, s, q);
      forall j | |r.batches| <= j < |q.batches|
        ensures |q.batches[j]| == 1 && q.batches[j][0] in lines && q.batches[j][0] !in {"", "p", "exit"}
      {
        if j < |s.batches| {
          assert q.batches[j] == q.batches[..|s.batches|][j];
        } else {
          assert q.batches[j][0] in lines[1..];
        }
      }
      forall j | |r.images| <= j < |q.images| ensures q.images[j] == frame {
        if j < |s.images| {
          assert q.images[j] == q.images[..|s.images|][j];
        }
      }
    }
  }

  // ---------------------------------------------------------------------
  // ActFromFileMode.start and ActFromActionListMode.start
  // ---------------------------------------------------------------------

  /**
   * The file's lines are executed as one list.  Joining the missing file
   * name into a path raises TypeError; a file that cannot be opened is
   * reported and nothing is executed.
   */
  function FileBody(exec: (Link, seq<string>) -> Executed, r: Run, filename: Option<string>, content: Option<string>): Run
  {
    if filename.None? then r.(error := Some(TypeError))
    else if content.None? then r
    else Act(exec, r, Split(content.value, '\n'))
  }

  /** `ActFromFileMode.start` under its guard. */
  function ActFromFileStart(cfg: Config, exec: (Link, seq<string>) -> Executed, r: Run,
                            filename: Option<string>, content: Option<string>): Stop
  {
    Guarded(cfg, exec, r, Done(FileBody(exec, r, filename, content)))
  }

  /** The action list is executed as it is; a missing one makes `len(None)` raise TypeError. */
  function ListBody(exec: (Link, seq<string>) -> Executed, r: Run, actions: Option<seq<string>>): Run
  {
    if actions.None? then r.(error := Some(TypeError)) else Act(exec, r, actions.value)
  }

  /** `ActFromActionListMode.start` under its guard. */
  function ActFromListStart(cfg: Config, exec: (Link, seq<string>) -> Executed, r: Run,
                            actions: Option<seq<string>>): Stop
  {
    Guarded(cfg, exec, r, Done(ListBody(exec, r, actions)))
  }

  /**
   * On a connected drone the file mode makes exactly one call, with the
   * file's lines, and the list mode exactly one call, with the list; no
   * file name or no list raises TypeError before any call.
   */
  lemma ListModes(exec: (Link, seq<string>) -> Executed, r: Run, filename: Option<string>, content: Option<string>,
                  actions: Option<seq<string>>)
    requires r.error.None?
    ensures filename.None? ==> FileBody(exec, r, filename, content) == r.(error := Some(TypeError))
    ensures filename.Some? && content.None? ==> FileBody(exec, r, filename, content) == r
    ensures filename.Some? && content.Some? ==>
      FileBody(exec, r, filename, content).batches == r.batches + [Split(content.value, '\n')] &&
      FileBody(exec, r, filename, content).link == exec(r.link, Split(content.value, '\n')).link
    ensures actions.None? ==> ListBody(exec, r, actions) == r.(error := Some(TypeError))
    ensures actions.Some? ==>
      ListBody(exec, r, actions).batches == r.batches + [actions.value] &&
      ListBody(exec, r, actions).link == exec(r.link, actions.value).link
  {
  }

  // ---------------------------------------------------------------------
  // PictureMission
  // ---------------------------------------------------------------------

  /**
   * What `get_in_front` and `move_around` compute in floating point: the
   * position reached in front of the object and the text of the two
   * displacements made between shots.
   */
  datatype Placement = Placement(x: int, y: int, xMove: string, yMove: string)

  /** `str(360/8)`: the turn between two shots. */
  const THETA: string := "45.0"

  /** The move back to the shooting height `take_ground_angle_picture` makes. */
  function UpDown(h: int): string
  {
    if h > 100 then Entry(0, "up " + IntToStr(h - 100)) else Entry(0, "down " + IntToStr(100 - h))
  }

  /** `take_ground_angle_picture(h)`: land, shoot, take off, back to height h. */
  function GroundPicture(exec: (Link, seq<string>) -> Executed, r: Run, frame: Option<Picture>, h: int): Run
  {
    var landed := Snap(Act(exec, r, ["0-land"]), frame);
    ActAll(exec, landed, [["0-takeoff"], [UpDown(h)]])
  }

  /** One of the eight points of a level: a ground shot, a shot in the air, then on to the next point. */
  function AroundPoint(exec: (Link, seq<string>) -> Executed, r: Run, frame: Option<Picture>, h: int, p: Placement): Run
  {
    var shot := Snap(GroundPicture(exec, r, frame, h), frame);
    ActAll(exec, shot, [["0-right " + p.xMove], ["0-forward " + p.yMove], ["0-ccw " + THETA]])
  }

  /** The remaining `k` points of a level. */
  function Points(exec: (Link, seq<string>) -> Executed, r: Run, frame: Option<Picture>, h: int, p: Placement, k: nat): Run
    decreases k
  {
    if k == 0 then r else Points(exec, AroundPoint(exec, r, frame, h, p), frame, h, p, k - 1)
  }

  /** The levels from height h on, while below the object's height, each followed by a climb of 20. */
  function Levels(exec: (Link, seq<string>) -> Executed, r: Run, frame: Option<Picture>, h: int, height: int,
                  p: Placement): Run
    decreases height - h
  {
    if h >= height then r
    else Levels(exec, Act(exec, Points(exec, r, frame, h, p, 8), ["0-up 20"]), frame, h + 20, height, p)
  }

  /** Take off, come down 50, fly forward y, then right x or left |x|. */
  function Approach(p: Placement): seq<seq<string>>
  {
    [["0-takeoff"], ["0-down 50"], ["0-forward " + IntToStr(p.y)],
     if p.x > 0 then ["0-right " + IntToStr(p.x)] else ["0-left " + IntToStr(-1 * p.x)]]
  }

  /** `move_around`: the approach, the levels from height 10, and the landing. */
  function MoveAround(exec: (Link, seq<string>) -> Executed, r: Run, frame: Option<Picture>, p: Placement, height: int): Run
  {
    var ready := ActAll(exec, r, Approach(p));
    Act(exec, Levels(exec, ready, frame, 10, height, p), ["0-land"])
  }

  /** `PictureMission.start`: without the object's distance or dimensions it does nothing. */
  function PictureBody(exec: (Link, seq<string>) -> Executed, r: Run, frame: Option<Picture>,
                       distance: Option<(int, int)>, dim: Option<(int, int, int)>, p: Placement): Run
  {
    if distance.None? || dim.None? then r else MoveAround(exec, r, frame, p, dim.value.2)
  }

  /** `PictureMission.start` under its guard. */
  function PictureStart(cfg: Config, exec: (Link, seq<string>) -> Executed, r: Run, frame: Option<Picture>,
                        distance: Option<(int, int)>, dim: Option<(int, int, int)>, p: Placement): Stop
  {
    Guarded(cfg, exec, r, Done(PictureBody(exec, r, frame, distance, dim, p)))
  }

  /** The picture mission's constructor: without video it ends the connection first. */
  function PictureMissionNew(cfg: Config, exec: (Link, seq<string>) -> Executed, r: Run, frame: Option<Picture>,
                          distance: Option<(int, int)>, dim: Option<(int, int, int)>, p: Placement): Stop
  {
    var r0 := if !cfg.videoStream then r.(link := SetEnd(r.link, true)) else r;
    PictureStart(cfg, exec, r0, frame, distance, dim, p)
  }

  /** The number of levels: how many k >= 0 have 10 + 20k below the height. */
  function LevelCount(height: int): nat
  {
    if height <= 10 then 0 else (height - 10 + 19) / 20
  }

  lemma LevelCountIsCount(height: int, k: nat)
    ensures k < LevelCount(height) <==> 10 + 20 * k < height
  {
  }

  /**
   * `take_ground_angle_picture(h)` without an exception: `0-land`, one
   * picture, `0-takeoff`, then `0-up h-100` above 100 and `0-down 100-h`
   * otherwise (`0-down 0` at 100).
   */
  lemma GroundPictureCalls(exec: (Link, seq<string>) -> Executed, r: Run, frame: Option<Picture>, h: int)
    ensures var q := GroundPicture(exec, r, frame, h);
      q.error.None? ==>
        q.batches == r.batches + [["0-land"], ["0-takeoff"], [UpDown(h)]] && q.images == r.images + [frame]
    ensures h > 100 ==> UpDown(h) == "0-up " + IntToStr(h - 100)
    ensures h <= 100 ==> UpDown(h) == "0-down " + IntToStr(100 - h)
  {
    var landed := Snap(Act(exec, r, ["0-land"]), frame);
    ActAllShape(exec, landed, [["0-takeoff"], [UpDown(h)]]);
    if landed.error.Some? {
      ActAllRaised(exec, landed, [["0-takeoff"], [UpDown(h)]]);
    }
  }

  /** An exception stops the mission where it is. */
  lemma {:induction false} PointsRaised(exec: (Link, seq<string>) -> Executed, r: Run, frame: Option<Picture>,
                                        h: int, p: Placement, k: nat)
    requires r.error.Some?
    ensures Points(exec, r, frame, h, p, k) == r
    decreases k
  {
    if k > 0 {
      ActAllRaised(exec, r, [["0-takeoff"], [UpDown(h)]]);
      ActAllRaised(exec, r, [["0-right " + p.xMove], ["0-forward " + p.yMove], ["0-ccw " + THETA]]);
      PointsRaised(exec, r, frame, h, p, k - 1);
    }
  }

  lemma {:induction false} LevelsRaised(exec: (Link, seq<string>) -> Executed, r: Run, frame: Option<Picture>,
                                        h: int, height: int, p: Placement)
    requires r.error.Some?
    ensures Levels(exec, r, frame, h, height, p) == r
    decreases height - h
  {
    if h < height {
      PointsRaised(exec, r, frame, h, p, 8);
      LevelsRaised(exec, r, frame, h + 20, height, p);
    }
  }

  /** A point without an exception makes six calls and takes two pictures. */
  lemma AroundPointCounts(exec: (Link, seq<string>) -> Executed, r: Run, frame: Option<Picture>, h: int, p: Placement)
    ensures var q := AroundPoint(exec, r, frame, h, p);
      q.error.None? ==> r.error.None? && |q.batches| == |r.batches| + 6 && |q.images| == |r.images| + 2
  {
    GroundPictureCalls(exec, r, frame, h);
    var shot := Snap(GroundPicture(exec, r, frame, h), frame);
    ActAllShape(exec, shot, [["0-right " + p.xMove], ["0-forward " + p.yMove], ["0-ccw " + THETA]]);
    if r.error.Some? {
      ActAllRaised(exec, r, [["0-takeoff"], [UpDown(h)]]);
    }
  }

  lemma {:induction false} PointsCounts(exec: (Link, seq<string>) -> Executed, r: Run, frame: Option<Picture>,
                                        h: int, p: Placement, k: nat)
    ensures var q := Points(exec, r, frame, h, p, k);
      q.error.None? ==> r.error.None? && |q.batches| == |r.batches| + 6 * k && |q.images| == |r.images| + 2 * k
    decreases k
  {
    if k > 0 {
      var a := AroundPoint(exec, r, frame, h, p);
      AroundPointCounts(exec, r, frame, h, p);
      PointsCounts(exec, a, frame, h, p, k - 1);
    }
  }

  /** The number of levels flown from height h on. */
  function LevelsFrom(h: int, height: int): nat
    decreases height - h
  {
    if h >= height then 0 else 1 + LevelsFrom(h + 20, height)
  }

  /** Starting at 10, that is how many k >= 0 have 10 + 20k below the object's height. */
  lemma {:induction false} LevelsFromCount(h: int, height: int)
    requires h >= 10 && (h - 10) % 20 == 0 && (h == 10 || h - 20 < height)
    ensures LevelsFrom(h, height) == LevelCount(height) - LevelCount(h)
    decreases height - h
  {
    if h < height {
      LevelsFromCount(h + 20, height);
    }
  }

  lemma {:induction false} LevelsCounts(exec: (Link, seq<string>) -> Executed, r: Run, frame: Option<Picture>,
                                        h: int, height: int, p: Placement)
    ensures var q := Levels(exec, r, frame, h, height, p);
      q.error.None? ==>
        r.error.None? && |q.batches| == |r.batches| + 49 * LevelsFrom(h, height) &&
        |q.images| == |r.images| + 16 * LevelsFrom(h, height)
    decreases height - h
  {
    if h < height {
      var pts := Points(exec, r, frame, h, p, 8);
      var up := Act(exec, pts, ["0-up 20"]);
      PointsCounts(exec, r, frame, h, p, 8);
      LevelsCounts(exec, up, frame, h + 20, height, p);
    }
  }

  /**
   * A picture mission that raises nothing makes 5 + 49 calls per level
   * (the approach, six per point and a climb per level, the landing) and
   * takes 16 pictures per level, whether or not the drones stay connected.
   */
  lemma MoveAroundCounts(exec: (Link, seq<string>) -> Executed, r: Run, frame: Option<Picture>, p: Placement, height: int)
    ensures var q := MoveAround(exec, r, frame, p, height);
      q.error.None? ==>
        |q.batches| == |r.batches| + 5 + 49 * LevelCount(height) &&
        |q.images| == |r.images| + 16 * LevelCount(height)
  {
    var ready := ActAll(exec, r, Approach(p));
    ActAllShape(exec, r, Approach(p));
    LevelsCounts(exec, ready, frame, 10, height, p);
    LevelsFromCount(10, height);
  }

  /** The approach ends with `0-right x` for x > 0 and `0-left |x|` otherwise, a move drone 0 receives stripped of its index. */
  lemma ApproachSide(cfg: Config, l: Link, p: Placement)
    requires LenOf(cfg, l) > 0
    ensures var side := Approach(p)[3];
      |side| == 1 &&
      (p.x > 0 ==> Target(cfg, l, side[0]) == Call(0, "right " + IntToStr(p.x))) &&
      (p.x <= 0 ==> Target(cfg, l, side[0]) == Call(0, "left " + IntToStr(-1 * p.x)))
  {
    var side := Approach(p)[3];
    if p.x > 0 {
      var move := "right " + IntToStr(p.x);
      assert side[0] == Entry(0, move);
      TargetIndexed(cfg, l, 0, move);
    } else {
      var m := -1 * p.x;
      var move := "left " + IntToStr(m);
      assert side[0] == Entry(0, move);
      TargetIndexed(cfg, l, 0, move);
    }
  }

  /**
   * Without video the mission ends the connection in its constructor and so
   * never runs; without the object's distance or dimensions its body makes
   * no call and takes no picture.
   */
  lemma PictureMissionGuards(cfg: Config, exec: (Link, seq<string>) -> Executed, r: Run, frame: Option<Picture>,
                             distance: Option<(int, int)>, dim: Option<(int, int, int)>, p: Placement)
    ensures !cfg.videoStream ==>
      PictureMissionNew(cfg, exec, r, frame, distance, dim, p) == Done(r.(link := SetEnd(r.link, true)))
    ensures distance.None? || dim.None? ==> PictureBody(exec, r, frame, distance, dim, p) == r
  {
  }

  // ---------------------------------------------------------------------
  // init_flight_mode and start_mission
  // ---------------------------------------------------------------------

  /**
   * What the modes read from outside: the keys `getch` returns, the lines
   * `input` returns (the end of the list is the end of the input), the
   * mission file's content (None when it cannot be opened), and what the
   * picture mission computes in floating point.
   */
  datatype Inputs = Inputs(keys: seq<string>, lines: seq<string>, fileContent: Option<string>, placement: Placement)

  /** The keyword options of `init_flight_mode`; None for an option not given. */
  datatype Options = Options(filename: Option<string>, actions: Option<seq<string>>,
                             objectDistance: Option<(int, int)>, objectDim: Option<(int, int, int)>)

  /** `start()` with no options, as `start_mission` calls it. */
  const NO_OPTIONS: Options := Options(None, None, None, None)

  /** The mode a name selects, once lower-cased and stripped. */
  function ModeOf(name: string): (m: Option<Mode>)
    ensures m.Some? <==> name in {"act from file", "act from list", "open pipe", "picture mission", "reactive"}
  {
    if name == "act from file" then Some(ActFromFile)
    else if name == "act from list" then Some(ActFromList)
    else if name == "open pipe" then Some(OpenPipe)
    else if name == "picture mission" then Some(PictureMission)
    else if name == "reactive" then Some(Reactive)
    else None
  }

  /** A mode's `start(**options)`, guard included. */
  function StartMode(cfg: Config, exec: (Link, seq<string>) -> Executed, mode: Mode, r: Run, frame: Option<Picture>,
                     options: Options, inputs: Inputs): Stop
  {
    match mode
      case ActFromFile => ActFromFileStart(cfg, exec, r, options.filename, inputs.fileContent)
      case ActFromList => ActFromListStart(cfg, exec, r, options.actions)
      case OpenPipe => OpenPipeStart(cfg, exec, r, frame, inputs.lines)
      case PictureMission => PictureStart(cfg, exec, r, frame, options.objectDistance, options.objectDim, inputs.placement)
      case Reactive => ReactiveStart(cfg, exec, r, frame, inputs.keys)
  }

  /**
   * A mode's constructor: a new object with no pictures, which runs `start`
   * at once; the picture mission first ends the connection when video is off.
   */
  function BuildMode(cfg: Config, exec: (Link, seq<string>) -> Executed, mode: Mode, l: Link, frame: Option<Picture>,
                     options: Options, inputs: Inputs): Stop
  {
    var r := Run(l, [], [], None);
    if mode == PictureMission then
      PictureMissionNew(cfg, exec, r, frame, options.objectDistance, options.objectDim, inputs.placement)
    else StartMode(cfg, exec, mode, r, frame, options, inputs)
  }

  /**
   * What `init_flight_mode` or `start_mission` leaves: the drone's state, its
   * `flight_mode`, the calls made, the exception raised, and whether it is
   * still waiting for input.
   */
  datatype Launch = Launch(link: Link, flightMode: Option<FlightModeState>, batches: seq<seq<string>>,
                           error: Option<Exc>, blocked: bool)

  /**
   * `init_flight_mode(name, **options)`.  Nothing happens on a disconnected
   * drone.  A missing file name or action list ends the connection and
   * raises TypeError, a picture mission without a decoder raises
   * NoVideoDecoderError, an unknown name ends the connection.  Otherwise the
   * mode is built, and so run; it is stored only if that returned normally.
   */
  function InitFlight(cfg: Config, exec: (Link, seq<string>) -> Executed, l: Link, current: Option<FlightModeState>,
                      frame: Option<Picture>, name: string, options: Options, inputs: Inputs): Launch
  {
    if l.endConnection then Launch(l, current, [], None, false)
    else
      var mode := ModeOf(Strip(Lower(name)));
      if mode.None? then Launch(SetEnd(l, true), current, [], None, false)
      else if mode.value == ActFromFile && options.filename.None? then Launch(SetEnd(l, true), current, [], Some(TypeError), false)
      else if mode.value == ActFromList && options.actions.None? then Launch(SetEnd(l, true), current, [], Some(TypeError), false)
      else if mode.value == PictureMission && !cfg.decoder then Launch(l, current, [], Some(NoVideoDecoderError), false)
      else
        var s := BuildMode(cfg, exec, mode.value, l, frame, options, inputs);
        var stored := if s.Done? && s.run.error.None? then Some(FlightModeState(mode.value, s.run.images)) else current;
        Launch(s.run.link, stored, s.run.batches, s.run.error, s.Blocked?)
  }

  /**
   * `start_mission()`: only a connected drone with a flight mode runs its
   * `start()`, with no options; the pictures it takes are added to the
   * mode's own.
   */
  function StartMissionSpec(cfg: Config, exec: (Link, seq<string>) -> Executed, l: Link, current: Option<FlightModeState>,
                        frame: Option<Picture>, inputs: Inputs): Launch
  {
    if l.endConnection || current.None? then Launch(l, current, [], None, false)
    else
      var s := StartMode(cfg, exec, current.value.mode, Run(l, current.value.images, [], None), frame, NO_OPTIONS, inputs);
      Launch(s.run.link, Some(FlightModeState(current.value.mode, s.run.images)), s.run.batches, s.run.error, s.Blocked?)
  }

  /**
   * On a connected drone, a name no mode has ends the connection and calls
   * nothing, and so does a missing file name or action list, which also
   * raises TypeError; on a disconnected drone nothing changes.
   */
  lemma InitFlightRefused(cfg: Config, exec: (Link, seq<string>) -> Executed, l: Link, current: Option<FlightModeState>,
                          frame: Option<Picture>, name: string, options: Options, inputs: Inputs)
    ensures l.endConnection ==> InitFlight(cfg, exec, l, current, frame, name, options, inputs) == Launch(l, current, [], None, false)
    ensures !l.endConnection && ModeOf(Strip(Lower(name))).None? ==>
      InitFlight(cfg, exec, l, current, frame, name, options, inputs) == Launch(SetEnd(l, true), current, [], None, false)
    ensures !l.endConnection && ModeOf(Strip(Lower(name))) == Some(ActFromFile) && options.filename.None? ==>
      InitFlight(cfg, exec, l, current, frame, name, options, inputs) == Launch(SetEnd(l, true), current, [], Some(TypeError), false)
    ensures !l.endConnection && ModeOf(Strip(Lower(name))) == Some(ActFromList) && options.actions.None? ==>
      InitFlight(cfg, exec, l, current, frame, name, options, inputs) == Launch(SetEnd(l, true), current, [], Some(TypeError), false)
  {
  }

  /** Every mode that returns normally leaves the connection ended. */
  lemma StartModeEnds(cfg: Config, exec: (Link, seq<string>) -> Executed, mode: Mode, r: Run, frame: Option<Picture>,
                      options: Options, inputs: Inputs)
    requires StartMode(cfg, exec, mode, r, frame, options, inputs).Done?
    requires StartMode(cfg, exec, mode, r, frame, options, inputs).run.error.None?
    ensures StartMode(cfg, exec, mode, r, frame, options, inputs).run.link.endConnection
  {
    match mode
      case ActFromFile => GuardedEnds(cfg, exec, r, Done(FileBody(exec, r, options.filename, inputs.fileContent)));
      case ActFromList => GuardedEnds(cfg, exec, r, Done(ListBody(exec, r, options.actions)));
      case OpenPipe => GuardedEnds(cfg, exec, r, Done(PipeLines(exec, r, frame, inputs.lines)));
      case PictureMission =>
        GuardedEnds(cfg, exec, r, Done(PictureBody(exec, r, frame, options.objectDistance, options.objectDim, inputs.placement)));
      case Reactive => GuardedEnds(cfg, exec, r, ReactiveKeys(cfg, exec, r, frame, inputs.keys));
  }

  /**
   * Since every mode runs inside its constructor and ends the connection,
   * `start_mission` right after an `init_flight_mode` that returned does
   * nothing.
   */
  lemma StartAfterInit(cfg: Config, exec: (Link, seq<string>) -> Executed, l: Link, current: Option<FlightModeState>,
                       frame: Option<Picture>, name: string, options: Options, inputs: Inputs, later: Inputs)
    requires var i := InitFlight(cfg, exec, l, current, frame, name, options, inputs); i.error.None? && !i.blocked
    ensures var i := InitFlight(cfg, exec, l, current, frame, name, options, inputs);
      i.link.endConnection ==> StartMissionSpec(cfg, exec, i.link, i.flightMode, frame, later) == Launch(i.link, i.flightMode, [], None, false)
    ensures var i := InitFlight(cfg, exec, l, current, frame, name, options, inputs);
      i.flightMode != current ==> i.link.endConnection
  {
    var mode := ModeOf(Strip(Lower(name)));
    if !l.endConnection && mode.Some? && !(mode.value == ActFromFile && options.filename.None?) &&
       !(mode.value == ActFromList && options.actions.None?) && !(mode.value == PictureMission && !cfg.decoder) {
      var r := Run(l, [], [], None);
      var start := if mode.value == PictureMission && !cfg.videoStream then r.(link := SetEnd(l, true)) else r;
      var s := BuildMode(cfg, exec, mode.value, l, frame, options, inputs);
      if s.Done? && s.run.error.None? {
        StartModeEnds(cfg, exec, mode.value, start, frame, options, inputs);
      }
    }
  }

  // ---------------------------------------------------------------------
  // The flight-mode objects
  // ---------------------------------------------------------------------

  /** A flight mode: the drone it flies, which mode it is, and `all_images`. */
  class FlightMode {
    const drone: Drone
    const mode: Mode
    var images: seq<Option<Picture>>

    /** `AbstractFlightMode.__init__`: no picture yet. */
    constructor (drone: Drone, mode: Mode)
      ensures this.drone == drone && this.mode == mode && images == []
    {
      this.drone := drone;
      this.mode := mode;
      images := [];
    }

    /** The mode's progress as a `Run`, given the calls made so far. */
    ghost function Now(batches: seq<seq<string>>, error: Option<Exc>): Run
      reads this, drone
    {
      Run(drone.Snapshot(), images, batches, error)
    }

    /** `swarm.execute_actions(batch)`. */
    method ExecuteBatch(batch: seq<string>, net: Network, ghost exec: (Link, seq<string>) -> Executed, ghost sent: seq<seq<string>>)
      returns (error: Option<Exc>)
      requires drone.Valid() && Carries(exec, drone.config, net)
      modifies drone`addresses, drone`lastParameters, drone`allInstructions, drone`endConnection,
        drone`commandSocket, drone`stateSocket, drone`videoSocket
      ensures drone.Valid()
      ensures Now(sent + [batch], error) == Act(exec, old(Now(sent, None)), batch)
    {
      var sleeps, e, calls := drone.ExecuteActions(batch, net);
      error := e;
    }

    /** `all_images.append(swarm.take_picture())`. */
    method TakePicture()
      modifies this`images
      ensures images == old(images) + [drone.lastFrame]
    {
      var picture := drone.TakePicture();
      images := images + [picture];
    }

    /** Several `execute_actions` calls in a row, stopping at the first exception. */
    method ExecuteAll(batches: seq<seq<string>>, net: Network,
                      ghost exec: (Link, seq<string>) -> Executed, ghost sent: seq<seq<string>>)
      returns (error: Option<Exc>, ghost after: seq<seq<string>>)
      requires drone.Valid() && Carries(exec, drone.config, net)
      modifies drone`addresses, drone`lastParameters, drone`allInstructions, drone`endConnection,
        drone`commandSocket, drone`stateSocket, drone`videoSocket
      ensures drone.Valid()
      ensures Now(after, error) == ActAll(exec, old(Now(sent, None)), batches)
    {
      ghost var total := ActAll(exec, Now(sent, None), batches);
      error := None;
      after := sent;
      var i := 0;
      while i < |batches|
        invariant drone.Valid() && i <= |batches| && error.None?
        invariant total == ActAll(exec, Now(after, None), batches[i..])
      {
        assert batches[i..][0] == batches[i] && batches[i..][1..] == batches[i + 1..];
        error := ExecuteBatch(batches[i], net, exec, after);
        after := after + [batches[i]];
        if error.Some? {
          ActAllRaised(exec, Now(after, error), batches[i + 1..]);
          return;
        }
        i := i + 1;
      }
    }

    /** `for index in range(len(swarm)): swarm.execute_actions([f'{index}-{command}'])`. */
    method SendEach(command: string, net: Network,
                    ghost exec: (Link, seq<string>) -> Executed, ghost sent: seq<seq<string>>)
      returns (error: Option<Exc>, ghost after: seq<seq<string>>)
      requires drone.Valid() && Carries(exec, drone.config, net)
      modifies drone`addresses, drone`lastParameters, drone`allInstructions, drone`endConnection,
        drone`commandSocket, drone`stateSocket, drone`videoSocket
      ensures drone.Valid()
      ensures var n := LenOf(drone.config, old(drone.Snapshot()));
        Now(after, error) == ActAll(exec, old(Now(sent, None)), EachDrone(n, command))
    {
      var n := LenOf(drone.config, drone.Snapshot());
      ghost var all := EachDrone(n, command);
      ghost var total := ActAll(exec, Now(sent, None), all);
      error := None;
      after := sent;
      var index := 0;
      while index < n
        invariant drone.Valid() && index <= n && error.None?
        invariant total == ActAll(exec, Now(after, None), all[index..])
      {
        assert all[index..][0] == [Entry(index, command)] && all[index..][1..] == all[index + 1..];
        error := ExecuteBatch([Entry(index, command)], net, exec, after);
        after := after + [[Entry(index, command)]];
        if error.Some? {
          ActAllRaised(exec, Now(after, error), all[index + 1..]);
          return;
        }
        index := index + 1;
      }
    }

    /**
     * The tail of `back_to_base`: replay the reversed log when asked to,
     * then end the connection.
     */
    method BackToBase(net: Network, ghost exec: (Link, seq<string>) -> Executed, ghost sent: seq<seq<string>>)
      returns (error: Option<Exc>, ghost after: seq<seq<string>>)
      requires drone.Valid() && Carries(exec, drone.config, net)
      modifies drone`addresses, drone`lastParameters, drone`allInstructions, drone`endConnection,
        drone`commandSocket, drone`stateSocket, drone`videoSocket
      ensures drone.Valid()
      ensures Now(after, error) == Finish(drone.config, exec, old(Now(sent, None)))
    {
      error := None;
      after := sent;
      if drone.config.backToBase {
        var back := Toolbox.ReverseActions(drone.allInstructions);
        if back.Err? {
          error := Some(back.error);
          return;
        }
        error := ExecuteBatch(back.value, net, exec, sent);
        after := sent + [back.value];
        if error.Some? {
          return;
        }
      }
      drone.SetEndConnection(true);
    }

    /** The exit keys: land every drone, end the connection, close the command socket. */
    method LandAll(net: Network, ghost exec: (Link, seq<string>) -> Executed, ghost sent: seq<seq<string>>)
      returns (error: Option<Exc>, ghost after: seq<seq<string>>)
      requires drone.Valid() && Carries(exec, drone.config, net)
      modifies drone`addresses, drone`lastParameters, drone`allInstructions, drone`endConnection,
        drone`commandSocket, drone`stateSocket, drone`videoSocket
      ensures drone.Valid()
      ensures Now(after, error) == Land(drone.config, exec, old(Now(sent, None)))
    {
      error, after := SendEach("land", net, exec, sent);
      if error.Some? {
        return;
      }
      drone.SetEndConnection(true);
      if drone.commandSocket == Absent {
        error := Some(AttributeError);
      }
    }

    /** One key of the reactive mode other than an exit key. */
    method HandleKey(key: string, net: Network,
                     ghost exec: (Link, seq<string>) -> Executed, ghost sent: seq<seq<string>>)
      returns (error: Option<Exc>, ghost after: seq<seq<string>>)
      requires drone.Valid() && Carries(exec, drone.config, net)
      modifies this`images, drone`addresses, drone`lastParameters, drone`allInstructions, drone`endConnection,
        drone`commandSocket, drone`stateSocket, drone`videoSocket
      ensures drone.Valid()
      ensures Now(after, error) ==
        KeyStep(drone.config, exec, old(Now(sent, None)), drone.lastFrame, key)
    {
      error := None;
      after := sent;
      if key in ESCAPE_KEYS {
        return;
      }
      if key == "p" {
        TakePicture();
        return;
      }
      var command := Toolbox.CommandFromKey(Toolbox.KeyText(key));
      if command.Some? {
        error, after := SendEach(command.value, net, exec, sent);
      }
    }

    /** `ReactiveMode.start`: read keys while connected; `blocked` when the keys run out. */
    method StartReactive(keys: seq<string>, net: Network, ghost exec: (Link, seq<string>) -> Executed)
      returns (error: Option<Exc>, blocked: bool, ghost sent: seq<seq<string>>)
      requires drone.Valid() && Carries(exec, drone.config, net)
      modifies this`images, drone`addresses, drone`lastParameters, drone`allInstructions, drone`endConnection,
        drone`commandSocket, drone`stateSocket, drone`videoSocket
      ensures drone.Valid()
      ensures var s := ReactiveStart(drone.config, exec, old(Now([], None)), drone.lastFrame, keys);
        Now(sent, error) == s.run && blocked == s.Blocked?
    {
      sent := [];
      error := None;
      blocked := false;
      if !drone.IsConnected() {
        return;
      }
      ghost var body := ReactiveKeys(drone.config, exec, Now([], None), drone.lastFrame, keys);
      var i := 0;
      while drone.IsConnected()
        invariant drone.Valid() && i <= |keys| && error.None?
        invariant body == ReactiveKeys(drone.config, exec, Now(sent, None), drone.lastFrame, keys[i..])
        decreases |keys| - i
      {
        if i == |keys| {
          blocked := true;
          return;
        }
        var key := keys[i];
        assert keys[i..][0] == key && keys[i..][1..] == keys[i + 1..];
        i := i + 1;
        if key in EXIT_KEYS {
          error, sent := LandAll(net, exec, sent);
          if error.Some? {
            return;
          }
          break;
        }
        error, sent := HandleKey(key, net, exec, sent);
        if error.Some? {
          return;
        }
      }
      assert body == Done(Now(sent, None));
      error, sent := BackToBase(net, exec, sent);
    }
  
    /** One line of the open pipe other than `exit`. */
    method HandleLine(line: string, net: Network,
                      ghost exec: (Link, seq<string>) -> Executed, ghost sent: seq<seq<string>>)
      returns (error: Option<Exc>, ghost after: seq<seq<string>>)
      requires drone.Valid() && Carries(exec, drone.config, net)
      modifies this`images, drone`addresses, drone`lastParameters, drone`allInstructions, drone`endConnection,
        drone`commandSocket, drone`stateSocket, drone`videoSocket
      ensures drone.Valid()
      ensures Now(after, error) == PipeStep(exec, old(Now(sent, None)), drone.lastFrame, line)
    {
      error := None;
      after := sent;
      if line == "p" {
        TakePicture();
      } else if line != "" {
        error := ExecuteBatch([line], net, exec, sent);
        after := sent + [[line]];
      }
    }

    /** `OpenPipeMode.start`: execute lines while connected, up to `exit` or the end of the input. */
    method StartOpenPipe(lines: seq<string>, net: Network, ghost exec: (Link, seq<string>) -> Executed)
      returns (error: Option<Exc>, blocked: bool, ghost sent: seq<seq<string>>)
      requires drone.Valid() && Carries(exec, drone.config, net)
      modifies this`images, drone`addresses, drone`lastParameters, drone`allInstructions, drone`endConnection,
        drone`commandSocket, drone`stateSocket, drone`videoSocket
      ensures drone.Valid()
      ensures var s := OpenPipeStart(drone.config, exec, old(Now([], None)), drone.lastFrame, lines);
        Now(sent, error) == s.run && blocked == s.Blocked?
    {
      sent := [];
      error := None;
      blocked := false;
      if !drone.IsConnected() {
        return;
      }
      ghost var body := PipeLines(exec, Now([], None), drone.lastFrame, lines);
      var i := 0;
      while drone.IsConnected()
        invariant drone.Valid() && i <= |lines| && error.None?
        invariant body == PipeLines(exec, Now(sent, None), drone.lastFrame, lines[i..])
        decreases |lines| - i
      {
        if i == |lines| {
          break;
        }
        var line := lines[i];
        assert lines[i..][0] == line && lines[i..][1..] == lines[i + 1..];
        i := i + 1;
        if line == "exit" {
          break;
        }
        error, sent := HandleLine(line, net, exec, sent);
        if error.Some? {
          return;
        }
      }
      assert body == Now(sent, None);
      error, sent := BackToBase(net, exec, sent);
    }

    /** `ActFromFileMode.start`: the file's lines as one list of actions. */
    method StartFromFile(filename: Option<string>, content: Option<string>, net: Network,
                         ghost exec: (Link, seq<string>) -> Executed)
      returns (error: Option<Exc>, blocked: bool, ghost sent: seq<seq<string>>)
      requires drone.Valid() && Carries(exec, drone.config, net)
      modifies this`images, drone`addresses, drone`lastParameters, drone`allInstructions, drone`endConnection,
        drone`commandSocket, drone`stateSocket, drone`videoSocket
      ensures drone.Valid()
      ensures var s := ActFromFileStart(drone.config, exec, old(Now([], None)), filename, content);
        Now(sent, error) == s.run && blocked == s.Blocked?
    {
      sent := [];
      error := None;
      blocked := false;
      if !drone.IsConnected() {
        return;
      }
      ghost var body := FileBody(exec, Now([], None), filename, content);
      assert ActFromFileStart(drone.config, exec, Now([], None), filename, content) ==
        Done(Finish(drone.config, exec, body));
      if filename.None? {
        error := Some(TypeError);
        return;
      }
      if content.Some? {
        var actions := Split(content.value, '\n');
        error := ExecuteBatch(actions, net, exec, []);
        sent := [actions];
        if error.Some? {
          return;
        }
      }
      assert Now(sent, None) == body;
      error, sent := BackToBase(net, exec, sent);
    }

    /** `ActFromActionListMode.start`: the list as it is. */
    method StartFromList(actions: Option<seq<string>>, net: Network,
                         ghost exec: (Link, seq<string>) -> Executed)
      returns (error: Option<Exc>, blocked: bool, ghost sent: seq<seq<string>>)
      requires drone.Valid() && Carries(exec, drone.config, net)
      modifies this`images, drone`addresses, drone`lastParameters, drone`allInstructions, drone`endConnection,
        drone`commandSocket, drone`stateSocket, drone`videoSocket
      ensures drone.Valid()
      ensures var s := ActFromListStart(drone.config, exec, old(Now([], None)), actions);
        Now(sent, error) == s.run && blocked == s.Blocked?
    {
      sent := [];
      error := None;
      blocked := false;
      if !drone.IsConnected() {
        return;
      }
      ghost var body := ListBody(exec, Now([], None), actions);
      assert ActFromListStart(drone.config, exec, Now([], None), actions) == Done(Finish(drone.config, exec, body));
      if actions.None? {
        error := Some(TypeError);
        return;
      }
      error := ExecuteBatch(actions.value, net, exec, []);
      sent := [actions.value];
      assert Now(sent, error) == body;
      if error.Some? {
        return;
      }
      error, sent := BackToBase(net, exec, sent);
    }

    /** `take_ground_angle_picture(h)`. */
    method GroundAnglePicture(h: int, net: Network,
                              ghost exec: (Link, seq<string>) -> Executed, ghost sent: seq<seq<string>>)
      returns (error: Option<Exc>, ghost after: seq<seq<string>>)
      requires drone.Valid() && Carries(exec, drone.config, net)
      modifies this`images, drone`addresses, drone`lastParameters, drone`allInstructions, drone`endConnection,
        drone`commandSocket, drone`stateSocket, drone`videoSocket
      ensures drone.Valid()
      ensures Now(after, error) == GroundPicture(exec, old(Now(sent, None)), drone.lastFrame, h)
    {
      GroundPictureCalls(exec, Now(sent, None), drone.lastFrame, h);
      error := ExecuteBatch(["0-land"], net, exec, sent);
      after := sent + [["0-land"]];
      if error.Some? {
        ActAllRaised(exec, Now(after, error), [["0-takeoff"], [UpDown(h)]]);
        return;
      }
      TakePicture();
      ghost var landed := Now(after, None);
      assert ActAll(exec, landed, [["0-takeoff"], [UpDown(h)]]) ==
        ActAll(exec, Act(exec, landed, ["0-takeoff"]), [[UpDown(h)]]);
      error := ExecuteBatch(["0-takeoff"], net, exec, after);
      after := after + [["0-takeoff"]];
      if error.Some? {
        ActAllRaised(exec, Now(after, error), [[UpDown(h)]]);
        return;
      }
      ghost var up := Now(after, None);
      assert ActAll(exec, up, [[UpDown(h)]]) == Act(exec, up, [UpDown(h)]);
      if h > 100 {
        var move := "0-up " + IntToStr(h - 100);
        error := ExecuteBatch([move], net, exec, after);
        after := after + [[move]];
      } else {
        var move := "0-down " + IntToStr(100 - h);
        error := ExecuteBatch([move], net, exec, after);
        after := after + [[move]];
      }
    }

    /** One point of a level: a ground shot, a shot in the air, and the moves to the next point. */
    method VisitPoint(h: int, p: Placement, net: Network,
                      ghost exec: (Link, seq<string>) -> Executed, ghost sent: seq<seq<string>>)
      returns (error: Option<Exc>, ghost after: seq<seq<string>>)
      requires drone.Valid() && Carries(exec, drone.config, net)
      modifies this`images, drone`addresses, drone`lastParameters, drone`allInstructions, drone`endConnection,
        drone`commandSocket, drone`stateSocket, drone`videoSocket
      ensures drone.Valid()
      ensures Now(after, error) == AroundPoint(exec, old(Now(sent, None)), drone.lastFrame, h, p)
    {
      var moves := [["0-right " + p.xMove], ["0-forward " + p.yMove], ["0-ccw " + THETA]];
      error, after := GroundAnglePicture(h, net, exec, sent);
      if error.Some? {
        ActAllRaised(exec, Now(after, error), moves);
        return;
      }
      TakePicture();
      error, after := ExecuteAll(moves, net, exec, after);
    }

    /** The eight points of the level at height `h`. */
    method FlyLevel(h: int, n: nat, p: Placement, net: Network,
                    ghost exec: (Link, seq<string>) -> Executed, ghost sent: seq<seq<string>>)
      returns (error: Option<Exc>, ghost after: seq<seq<string>>)
      requires drone.Valid() && Carries(exec, drone.config, net)
      modifies this`images, drone`addresses, drone`lastParameters, drone`allInstructions, drone`endConnection,
        drone`commandSocket, drone`stateSocket, drone`videoSocket
      ensures drone.Valid()
      ensures Now(after, error) == Points(exec, old(Now(sent, None)), drone.lastFrame, h, p, n)
    {
      ghost var frame := drone.lastFrame;
      ghost var level := Points(exec, Now(sent, None), frame, h, p, n);
      error := None;
      after := sent;
      var k := 0;
      while k < n
        invariant drone.Valid() && k <= n && error.None? && drone.lastFrame == frame
        invariant level == Points(exec, Now(after, None), frame, h, p, n - k)
      {
        ghost var next := AroundPoint(exec, Now(after, None), frame, h, p);
        assert level == Points(exec, next, frame, h, p, n - k - 1);
        error, after := VisitPoint(h, p, net, exec, after);
        if error.Some? {
          PointsRaised(exec, next, frame, h, p, n - k - 1);
          return;
        }
        k := k + 1;
      }
      assert level == Now(after, None);
    }

    /** The levels from height 10 up, while below `height`, each followed by a climb of 20. */
    method FlyLevels(p: Placement, height: int, net: Network,
                     ghost exec: (Link, seq<string>) -> Executed, ghost sent: seq<seq<string>>)
      returns (error: Option<Exc>, ghost after: seq<seq<string>>)
      requires drone.Valid() && Carries(exec, drone.config, net)
      modifies this`images, drone`addresses, drone`lastParameters, drone`allInstructions, drone`endConnection,
        drone`commandSocket, drone`stateSocket, drone`videoSocket
      ensures drone.Valid()
      ensures Now(after, error) == Levels(exec, old(Now(sent, None)), drone.lastFrame, 10, height, p)
    {
      ghost var levels := Levels(exec, Now(sent, None), drone.lastFrame, 10, height, p);
      error := None;
      after := sent;
      var h := 10;
      while h < height
        invariant drone.Valid() && error.None?
        invariant levels == Levels(exec, Now(after, None), drone.lastFrame, h, height, p)
        decreases height - h
      {
        error, after := FlyLevel(h, 8, p, net, exec, after);
        if error.Some? {
          LevelsRaised(exec, Now(after, error), drone.lastFrame, h + 20, height, p);
          return;
        }
        h := h + 20;
        error := ExecuteBatch(["0-up 20"], net, exec, after);
        after := after + [["0-up 20"]];
        if error.Some? {
          LevelsRaised(exec, Now(after, error), drone.lastFrame, h, height, p);
          return;
        }
      }
    }

    /** `move_around`: the approach, the levels, the landing. */
    method FlyAround(p: Placement, height: int, net: Network,
                     ghost exec: (Link, seq<string>) -> Executed, ghost sent: seq<seq<string>>)
      returns (error: Option<Exc>, ghost after: seq<seq<string>>)
      requires drone.Valid() && Carries(exec, drone.config, net)
      modifies this`images, drone`addresses, drone`lastParameters, drone`allInstructions, drone`endConnection,
        drone`commandSocket, drone`stateSocket, drone`videoSocket
      ensures drone.Valid()
      ensures Now(after, error) == MoveAround(exec, old(Now(sent, None)), drone.lastFrame, p, height)
    {
      error, after := ExecuteAll(Approach(p), net, exec, sent);
      if error.Some? {
        LevelsRaised(exec, Now(after, error), drone.lastFrame, 10, height, p);
        return;
      }
      error, after := FlyLevels(p, height, net, exec, after);
      if error.Some? {
        return;
      }
      error := ExecuteBatch(["0-land"], net, exec, after);
      after := after + [["0-land"]];
    }

    /** `PictureMission.start`: without the object's distance or dimensions it only returns. */
    method StartPictureMission(distance: Option<(int, int)>, dim: Option<(int, int, int)>, placement: Placement,
                               net: Network, ghost exec: (Link, seq<string>) -> Executed)
      returns (error: Option<Exc>, blocked: bool, ghost sent: seq<seq<string>>)
      requires drone.Valid() && Carries(exec, drone.config, net)
      modifies this`images, drone`addresses, drone`lastParameters, drone`allInstructions, drone`endConnection,
        drone`commandSocket, drone`stateSocket, drone`videoSocket
      ensures drone.Valid()
      ensures var s := PictureStart(drone.config, exec, old(Now([], None)), drone.lastFrame,
                                    distance, dim, placement);
        Now(sent, error) == s.run && blocked == s.Blocked?
    {
      sent := [];
      error := None;
      blocked := false;
      if !drone.IsConnected() {
        return;
      }
      if distance.Some? && dim.Some? {
        error, sent := FlyAround(placement, dim.value.2, net, exec, sent);
        if error.Some? {
          return;
        }
      }
      error, sent := BackToBase(net, exec, sent);
    }

    /** `start(**options)` of whichever mode this is. */
    method Start(options: Options, inputs: Inputs, net: Network, ghost exec: (Link, seq<string>) -> Executed)
      returns (error: Option<Exc>, blocked: bool, ghost sent: seq<seq<string>>)
      requires drone.Valid() && Carries(exec, drone.config, net)
      modifies this`images, drone`addresses, drone`lastParameters, drone`allInstructions, drone`endConnection,
        drone`commandSocket, drone`stateSocket, drone`videoSocket
      ensures drone.Valid()
      ensures var s := StartMode(drone.config, exec, mode, old(Now([], None)), drone.lastFrame, options, inputs);
        Now(sent, error) == s.run && blocked == s.Blocked?
    {
      match mode
      case ActFromFile =>
        error, blocked, sent := StartFromFile(options.filename, inputs.fileContent, net, exec);
      case ActFromList =>
        error, blocked, sent := StartFromList(options.actions, net, exec);
      case OpenPipe =>
        error, blocked, sent := StartOpenPipe(inputs.lines, net, exec);
      case PictureMission =>
        error, blocked, sent := StartPictureMission(options.objectDistance, options.objectDim, inputs.placement, net, exec);
      case Reactive =>
        error, blocked, sent := StartReactive(inputs.keys, net, exec);
    }
  }

  /** A mode's constructor, which runs its `start` at once. */
  method NewFlightMode(d: Drone, mode: Mode, options: Options, inputs: Inputs, net: Network,
                       ghost exec: (Link, seq<string>) -> Executed)
    returns (m: FlightMode, error: Option<Exc>, blocked: bool, ghost sent: seq<seq<string>>)
    requires d.Valid() && Carries(exec, d.config, net)
    modifies d`addresses, d`lastParameters, d`allInstructions, d`endConnection,
        d`commandSocket, d`stateSocket, d`videoSocket
    ensures d.Valid() && fresh(m) && m.drone == d && m.mode == mode
    ensures var s := BuildMode(d.config, exec, mode, old(d.Snapshot()), d.lastFrame, options, inputs);
      Run(d.Snapshot(), m.images, sent, error) == s.run && blocked == s.Blocked?
  {
    m := new FlightMode(d, mode);
    if mode == PictureMission && !d.config.videoStream {
      d.SetEndConnection(true);
    }
    error, blocked, sent := m.Start(options, inputs, net, exec);
  }

  /** `init_flight_mode(name, **options)` on a drone. */
  method InitFlightMode(d: Drone, name: string, options: Options, inputs: Inputs, net: Network)
    returns (error: Option<Exc>, blocked: bool, ghost sent: seq<seq<string>>)
    requires d.Valid()
    modifies d`addresses, d`lastParameters, d`allInstructions, d`endConnection,
        d`commandSocket, d`stateSocket, d`videoSocket, d`flightMode
    ensures d.Valid()
    ensures Launch(d.Snapshot(), d.flightMode, sent, error, blocked) ==
      InitFlight(d.config, Executor(d.config, net), old(d.Snapshot()), old(d.flightMode), d.lastFrame, name, options, inputs)
  {
    error := None;
    blocked := false;
    sent := [];
    if !d.IsConnected() {
      return;
    }
    var mode := ModeOf(Strip(Lower(name)));
    if mode.None? {
      d.SetEndConnection(true);
      return;
    }
    if mode.value == ActFromFile && options.filename.None? {
      d.SetEndConnection(true);
      error := Some(TypeError);
      return;
    }
    if mode.value == ActFromList && options.actions.None? {
      d.SetEndConnection(true);
      error := Some(TypeError);
      return;
    }
    if mode.value == PictureMission && !d.config.decoder {
      error := Some(NoVideoDecoderError);
      return;
    }
    var m;
    ExecutorCarries(d.config, net);
    m, error, blocked, sent := NewFlightMode(d, mode.value, options, inputs, net, Executor(d.config, net));
    if error.None? && !blocked {
      d.flightMode := Some(FlightModeState(m.mode, m.images));
    }
  }

  /** `start_mission()` on a drone: its flight mode starts again with the pictures it holds. */
  method StartMission(d: Drone, inputs: Inputs, net: Network)
    returns (error: Option<Exc>, blocked: bool, ghost sent: seq<seq<string>>)
    requires d.Valid()
    modifies d`addresses, d`lastParameters, d`allInstructions, d`endConnection,
        d`commandSocket, d`stateSocket, d`videoSocket, d`flightMode
    ensures d.Valid()
    ensures Launch(d.Snapshot(), d.flightMode, sent, error, blocked) ==
      StartMissionSpec(d.config, Executor(d.config, net), old(d.Snapshot()), old(d.flightMode), d.lastFrame, inputs)
  {
    error := None;
    blocked := false;
    sent := [];
    if !d.IsConnected() || d.flightMode.None? {
      return;
    }
    var state := d.flightMode.value;
    var m := new FlightMode(d, state.mode);
    m.images := state.images;
    ExecutorCarries(d.config, net);
    error, blocked, sent := m.Start(NO_OPTIONS, inputs, net, Executor(d.config, net));
    d.flightMode := Some(FlightModeState(m.mode, m.images));
  }
}
