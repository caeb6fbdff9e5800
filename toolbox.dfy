/**
 * The action log reversal ("return to base") and the key-to-command table of
 * the controller's tool box.
 *
 * A log entry is the text `"<id>-<command> <args>"` that a drone stored when a
 * command was sent. reverse_actions walks the log backwards and produces the
 * commands that undo it; the exceptions it can raise are modelled as `Err`.
 */
module Toolbox {
  import opened PyBase

  /** Query and mode commands that reversal drops. */
  const IGNORABLE: set<string> :=
    {"command", "streamon", "streamoff", "mon", "moff", "sn?", "battery?", "time?", "wifi?", "sdk?"}

  /** Commands with a direct opposite. */
  const CONTRARY: map<string, string> :=
    map["up" := "down", "down" := "up", "left" := "right", "right" := "left",
        "forward" := "back", "back" := "forward", "cw" := "ccw", "ccw" := "cw",
        "land" := "takeoff", "emergency" := "takeoff", "takeoff" := "land"]

  /** Opposite flip directions. */
  const FLIP_CONTRARY: map<string, string> := map["l" := "r", "r" := "l", "f" := "b", "b" := "f"]

  /** The `"<id>-"` prefix of an entry; empty when the entry has no dash. */
  function DroneId(action: string): string
  {
    var parts := Split(action, '-');
    if |parts| >= 2 then parts[0] + "-" else ""
  }

  /** The command word: the text after the first dash up to a space, or the whole entry without a dash. */
  function CommandOf(action: string): string
  {
    var parts := Split(action, '-');
    if |parts| >= 2 then Split(parts[1], ' ')[0] else action
  }

  /**
   * The argument words of an entry. An entry holding a space but no dash
   * makes `action.split('-')[1]` raise IndexError (None here).
   */
  function ValuesOf(action: string): Option<seq<string>>
  {
    if ' ' in action then
      var parts := Split(action, '-');
      if |parts| >= 2 then Some(Split(parts[1], ' ')[1..]) else None
    else Some([])
  }

  function Min3(n: nat): nat { if n < 3 then n else 3 }

  /** `str(-1 * int(v))`; None when `int(v)` raises ValueError. */
  function NegatedText(v: string): (r: Option<string>)
    ensures r.Some? <==> ParseInt(v).Some?
    ensures r.Some? ==> ParseInt(r.value) == Some(-ParseInt(v).value)
  {
    match ParseInt(v)
    case None => None
    case Some(n) =>
      var m := -1 * n;
      ParseIntToStr(m);
      Some(IntToStr(m))
  }

  /** `go` arguments with each of the first three replaced by their NegatedText; ValueError when one is not a number. */
  function NegateFirstThree(values: seq<string>): Result<seq<string>, Exc>
  {
    var n := Min3(|values|);
    if forall i :: 0 <= i < n ==> NegatedText(values[i]).Some? then
      Ok(seq(|values|, i requires 0 <= i < |values| =>
        if i < n then NegatedText(values[i]).value else values[i]))
    else Err(ValueError)
  }

  /** A log entry taken apart: its `"<id>-"` prefix, its command word and its argument words. */
  datatype Entry = Entry(id: string, command: string, values: Option<seq<string>>)

  function ParseEntry(action: string): Entry
  {
    Entry(DroneId(action), CommandOf(action), ValuesOf(action))
  }

  /**
   * What one log entry becomes: None when it is dropped, Some(text) when it
   * contributes one reversed entry, Err when reverse_actions raises.
   */
  function ReverseEntry(action: string): Result<Option<string>, Exc>
  {
    ReverseParsed(ParseEntry(action), action)
  }

  function ReverseParsed(e: Entry, action: string): Result<Option<string>, Exc>
  {
    if e.command in IGNORABLE then Ok(None)
    else match e.values
      case None => Err(IndexError)
      case Some(values) => ReverseCommand(e.id, e.command, values, action)
  }

  /** The reversal of a command that is not dropped, given its prefix and arguments. */
  function ReverseCommand(id: string, command: string, values: seq<string>, action: string): Result<Option<string>, Exc>
  {
    if command in CONTRARY then
      if |values| > 0 then Ok(Some(id + CONTRARY[command] + " " + Join(values, ' ')))
      else Ok(Some(id + CONTRARY[command]))
    else if command == "go" then
      match NegateFirstThree(values)
      case Err(e) => Err(e)
      case Ok(negated) => Ok(Some(id + "go " + Join(negated, ' ')))
    else if command == "curve" then Ok(Some("Undefined curve"))
    else if command == "flip" then
      if |values| == 0 then Err(IndexError)
      else if values[0] in FLIP_CONTRARY then Ok(Some(id + "flip " + FLIP_CONTRARY[values[0]]))
      else Err(KeyError)
    else Ok(Some(action))  // jump and unknown commands are kept as they are
  }

  /** The commands with an opposite are neither dropped nor handled as go, curve or flip. */
  lemma ContraryIsPlain(c: string)
    requires c in CONTRARY
    ensures c !in IGNORABLE && c != "go" && c != "curve" && c != "flip"
  {
  }

  /** The reversal of an entry that is not dropped and whose arguments can be read. */
  lemma ReverseEntryUnfold(action: string, e: Entry)
    requires ParseEntry(action) == e && e.command !in IGNORABLE && e.values.Some?
    ensures ReverseEntry(action) == ReverseCommand(e.id, e.command, e.values.value, action)
  {
  }

  function OptSeq(o: Option<string>): seq<string>
  {
    if o.Some? then [o.value] else []
  }

  /** Put `front` before a successful result. */
  function Prepend(front: seq<string>, r: Result<seq<string>, Exc>): Result<seq<string>, Exc>
  {
    match r
    case Ok(rest) => Ok(front + rest)
    case Err(e) => Err(e)
  }

  /**
   * A log reversed from its last entry to its first, each entry turned into
   * at most one output by `step`; the first error raised wins.
   */
  function ReverseBy(step: string -> Result<Option<string>, Exc>, actions: seq<string>): Result<seq<string>, Exc>
    decreases |actions|
  {
    if |actions| == 0 then Ok([])
    else match step(actions[|actions| - 1])
      case Err(e) => Err(e)
      case Ok(o) => Prepend(OptSeq(o), ReverseBy(step, actions[..|actions| - 1]))
  }

  lemma PrependNothing(r: Result<seq<string>, Exc>)
    ensures Prepend([], r) == r
  {
    if r.Ok? {
      assert [] + r.value == r.value;
    }
  }

  /** reverse_actions on a whole log. */
  function ReverseAll(actions: seq<string>): Result<seq<string>, Exc>
  {
    ReverseBy(ReverseEntry, actions)
  }

  /** reverse_actions as the source writes it: a backwards loop appending to a list. */
  method ReverseActions(actions: seq<string>) returns (r: Result<seq<string>, Exc>)
    ensures r == ReverseAll(actions)
  {
    var reversedList: seq<string> := [];
    var i := |actions|;
    assert actions[..i] == actions;
    PrependNothing(ReverseAll(actions));
    while i > 0
      invariant 0 <= i <= |actions|
      invariant ReverseAll(actions) == Prepend(reversedList, ReverseBy(ReverseEntry, actions[..i]))
    {
      ReverseByLast(actions, i);
      var one := ReverseOneAction(actions[i - 1]);
      match one
      case Err(e) =>
        return Err(e);
      case Ok(o) =>
        PrependTwice(reversedList, OptSeq(o), ReverseBy(ReverseEntry, actions[..i - 1]));
        reversedList := reversedList + OptSeq(o);
        i := i - 1;
    }
    assert actions[..0] == [];
    assert reversedList + [] == reversedList;
    r := Ok(reversedList);
  }

  /** The body of reverse_actions' loop for one entry: None for `continue`, Some(text) for an append. */
  method ReverseOneAction(action: string) returns (r: Result<Option<string>, Exc>)
    ensures r == ReverseEntry(action)
  {
    var entry := ParseEntry(action);
    var droneId, command := entry.id, entry.command;
    if command in IGNORABLE {
      return Ok(None);
    }
    if entry.values.None? {
      return Err(IndexError);
    }
    var values := entry.values.value;
    var out := action;
    if command in CONTRARY {
      if |values| > 0 {
        out := droneId + CONTRARY[command] + " " + Join(values, ' ');
      } else {
        out := droneId + CONTRARY[command];
      }
    } else if command == "go" || command == "curve" || command == "jump" {
      if command == "go" {
        var negated := NegateGoValues(values);
        if negated.Err? {
          return Err(negated.error);
        }
        out := droneId + "go " + Join(negated.value, ' ');
      }
      if command == "curve" {
        out := "Undefined curve";
      }
    } else if command == "flip" {
      if |values| == 0 {
        return Err(IndexError);
      }
      if values[0] !in FLIP_CONTRARY {
        return Err(KeyError);
      }
      out := droneId + "flip " + FLIP_CONTRARY[values[0]];
    }
    r := Ok(Some(out));
  }

  /** The `go` loop: the first three arguments are replaced in place by their negation. */
  method NegateGoValues(arguments: seq<string>) returns (r: Result<seq<string>, Exc>)
    ensures r == NegateFirstThree(arguments)
  {
    var values := arguments;
    var k := 0;
    while k < |values| && k < 3
      invariant 0 <= k <= Min3(|arguments|)
      invariant NegatedUpTo(arguments, values, k)
    {
      var negated := NegatedText(values[k]);
      if negated.None? {
        NegateFails(arguments, values, k);
        return Err(ValueError);
      }
      NegateStep(arguments, values, k);
      values := values[k := negated.value];
      k := k + 1;
    }
    NegateDone(arguments, values, k);
    r := Ok(values);
  }

  /** The loop state after `k` steps: the first `k` arguments negated, the others untouched. */
  predicate NegatedUpTo(arguments: seq<string>, values: seq<string>, k: nat)
  {
    && k <= |arguments|
    && |values| == |arguments|
    && (forall j :: 0 <= j < k ==>
         NegatedText(arguments[j]).Some? && values[j] == NegatedText(arguments[j]).value)
    && (forall j :: k <= j < |values| ==> values[j] == arguments[j])
  }

  lemma NegateStep(arguments: seq<string>, values: seq<string>, k: nat)
    requires NegatedUpTo(arguments, values, k) && k < |values|
    requires NegatedText(values[k]).Some?
    ensures NegatedUpTo(arguments, values[k := NegatedText(values[k]).value], k + 1)
  {
  }

  lemma NegateFails(arguments: seq<string>, values: seq<string>, k: nat)
    requires NegatedUpTo(arguments, values, k) && k < Min3(|arguments|)
    requires NegatedText(values[k]).None?
    ensures NegateFirstThree(arguments) == Err(ValueError)
  {
    assert NegatedText(arguments[k]).None?;
  }

  lemma NegateDone(arguments: seq<string>, values: seq<string>, k: nat)
    requires NegatedUpTo(arguments, values, k)
    requires k == Min3(|arguments|)
    ensures NegateFirstThree(arguments) == Ok(values)
  {
    var n := Min3(|arguments|);
    assert forall i :: 0 <= i < n ==> NegatedText(arguments[i]).Some?;
    var expected := seq(|arguments|, i requires 0 <= i < |arguments| =>
      if i < n then NegatedText(arguments[i]).value else arguments[i]);
    assert NegateFirstThree(arguments) == Ok(expected);
    forall i | 0 <= i < |values| ensures expected[i] == values[i] {
    }
    assert expected == values;
  }

  /** One step of the reversal: the entry before position `i` is handled first. */
  lemma ReverseByLast(actions: seq<string>, i: nat)
    requires 0 < i <= |actions|
    ensures ReverseBy(ReverseEntry, actions[..i]) ==
      match ReverseEntry(actions[i - 1])
      case Err(e) => Err(e)
      case Ok(o) => Prepend(OptSeq(o), ReverseBy(ReverseEntry, actions[..i - 1]))
  {
    assert actions[..i][..i - 1] == actions[..i - 1];
  }

  lemma PrependTwice(front: seq<string>, more: seq<string>, r: Result<seq<string>, Exc>)
    ensures Prepend(front, Prepend(more, r)) == Prepend(front + more, r)
  {
    if r.Ok? {
      assert front + (more + r.value) == (front + more) + r.value;
    }
  }

  // ---------------------------------------------------------------------
  // What the reversal produces
  // ---------------------------------------------------------------------

  /** The entries reverse_actions does not drop, in log order. */
  function Kept(actions: seq<string>): (k: seq<string>)
    ensures |k| <= |actions|
    ensures forall j :: 0 <= j < |k| ==> CommandOf(k[j]) !in IGNORABLE
    decreases |actions|
  {
    if |actions| == 0 then []
    else
      var last := actions[|actions| - 1];
      Kept(actions[..|actions| - 1]) + (if CommandOf(last) in IGNORABLE then [] else [last])
  }

  /** The entries `step` does not drop, in log order. */
  function KeptBy(step: string -> Result<Option<string>, Exc>, actions: seq<string>): seq<string>
    decreases |actions|
  {
    if |actions| == 0 then []
    else
      var last := actions[|actions| - 1];
      KeptBy(step, actions[..|actions| - 1]) + (if step(last) == Ok(None) then [] else [last])
  }

  /**
   * A reversal succeeds exactly when no entry raises, and then yields one
   * output per kept entry, in reverse order.
   */
  lemma ReverseByShape(step: string -> Result<Option<string>, Exc>, actions: seq<string>)
    ensures ReverseBy(step, actions).Ok? <==> forall i :: 0 <= i < |actions| ==> step(actions[i]).Ok?
    ensures ReverseBy(step, actions).Ok? ==>
      var r := ReverseBy(step, actions).value;
      var k := KeptBy(step, actions);
      |r| == |k| && forall j :: 0 <= j < |r| ==> step(k[|k| - 1 - j]) == Ok(Some(r[j]))
  {
    ReverseByOk(step, actions);
    if ReverseBy(step, actions).Ok? {
      ReverseByKept(step, actions);
    }
  }

  /** The reversal fails exactly when some entry raises. */
  lemma {:induction false} ReverseByOk(step: string -> Result<Option<string>, Exc>, actions: seq<string>)
    ensures ReverseBy(step, actions).Ok? <==> forall i :: 0 <= i < |actions| ==> step(actions[i]).Ok?
    decreases |actions|
  {
    if |actions| > 0 {
      var n := |actions|;
      var init := actions[..n - 1];
      ReverseByOk(step, init);
      assert forall i :: 0 <= i < n - 1 ==> init[i] == actions[i];
      assert actions == init + [actions[n - 1]];
    }
  }

  lemma {:induction false} ReverseByKept(step: string -> Result<Option<string>, Exc>, actions: seq<string>)
    requires ReverseBy(step, actions).Ok?
    ensures var r := ReverseBy(step, actions).value;
      var k := KeptBy(step, actions);
      |r| == |k| && forall j :: 0 <= j < |r| ==> step(k[|k| - 1 - j]) == Ok(Some(r[j]))
    decreases |actions|
  {
    if |actions| > 0 {
      var n := |actions|;
      var init := actions[..n - 1];
      var last := actions[n - 1];
      var o := step(last).value;
      assert ReverseBy(step, init).Ok?;
      ReverseByKept(step, init);
      var r := ReverseBy(step, actions).value;
      var rest := ReverseBy(step, init).value;
      assert r == OptSeq(o) + rest;
      var k := KeptBy(step, actions);
      var k0 := KeptBy(step, init);
      if o == None {
        assert k == k0;
      } else {
        assert k == k0 + [last];
        forall j | 0 <= j < |r| ensures step(k[|k| - 1 - j]) == Ok(Some(r[j])) {
          if j > 0 {
            assert r[j] == rest[j - 1];
            assert k[|k| - 1 - j] == k0[|k0| - 1 - (j - 1)];
          }
        }
      }
    }
  }

  /** Exactly the commands of the ignore list yield nothing. */
  lemma DroppedIffIgnorable(action: string)
    ensures ReverseEntry(action) == Ok(None) <==> CommandOf(action) in IGNORABLE
  {
  }

  lemma {:induction false} KeptIsKeptBy(actions: seq<string>)
    ensures KeptBy(ReverseEntry, actions) == Kept(actions)
    decreases |actions|
  {
    if |actions| > 0 {
      KeptIsKeptBy(actions[..|actions| - 1]);
      DroppedIffIgnorable(actions[|actions| - 1]);
    }
  }

  /**
   * reverse_actions succeeds exactly when no entry raises, and then yields
   * one entry per entry not on the ignore list, last entry first, each the
   * reversal of that entry.
   */
  lemma ReverseAllShape(actions: seq<string>)
    ensures ReverseAll(actions).Ok? <==> forall i :: 0 <= i < |actions| ==> ReverseEntry(actions[i]).Ok?
    ensures ReverseAll(actions).Ok? ==>
      var r := ReverseAll(actions).value;
      var k := Kept(actions);
      |r| == |k| && forall j :: 0 <= j < |r| ==> ReverseEntry(k[|k| - 1 - j]) == Ok(Some(r[j]))
  {
    ReverseByShape(ReverseEntry, actions);
    KeptIsKeptBy(actions);
  }

  // ---------------------------------------------------------------------
  // Facts about one entry
  // ---------------------------------------------------------------------

  /** The first piece of a split, followed by nothing or by the separator. */
  lemma SplitHead(s: string, sep: char)
    ensures var h := Split(s, sep)[0];
      |h| <= |s| && s[..|h|] == h && (|h| == |s| || s[|h|] == sep)
  {
    JoinSplit(s, sep);
    var parts := Split(s, sep);
    if |parts| > 1 {
      assert Join(parts, sep) == parts[0] + [sep] + Join(parts[1..], sep);
    }
  }

  /** A separator-free word followed by nothing or by the separator is the first piece. */
  lemma SplitFirst(x: string, sep: char, tail: string)
    requires sep !in x
    requires tail == "" || tail[0] == sep
    ensures Split(x + tail, sep)[0] == x
  {
    if tail == "" {
      assert x + tail == x;
      SplitNoSep(x, sep);
    } else {
      assert x + tail == x + [sep] + tail[1..];
      SplitCons(x, sep, tail[1..]);
    }
  }

  /** An entry with one dash splits into its two sides. */
  lemma SplitOneDash(id: string, rest: string)
    requires '-' !in id && '-' !in rest
    ensures Split(id + "-" + rest, '-') == [id, rest]
  {
    SplitCons(id, '-', rest);
    SplitNoSep(rest, '-');
  }

  /** The arguments of a command, joined back, are the text after the command word. */
  lemma ValuesRejoin(p1: string)
    ensures var c := Split(p1, ' ')[0];
      var values := Split(p1, ' ')[1..];
      p1 == c + (if |values| > 0 then " " + Join(values, ' ') else "")
  {
    JoinSplit(p1, ' ');
    var parts := Split(p1, ' ');
    if |parts| > 1 {
      assert Join(parts, ' ') == parts[0] + [' '] + Join(parts[1..], ' ');
    }
  }

  /** For an entry with a dash, the arguments are the words after the command, whether or not a space occurs elsewhere. */
  lemma ValuesWithDash(action: string)
    requires |Split(action, '-')| >= 2
    ensures ValuesOf(action) == Some(Split(Split(action, '-')[1], ' ')[1..])
  {
    var p1 := Split(action, '-')[1];
    if ' ' !in action {
      SplitAvoids(action, '-', ' ');
      SplitNoSep(p1, ' ');
      assert [p1][1..] == [];
    }
  }

  /**
   * A command with a direct opposite is replaced by it; the `"<id>-"` prefix
   * and the argument text up to the next dash are kept.
   */
  lemma {:induction false} ReverseOpposite(action: string)
    requires |Split(action, '-')| >= 2
    requires CommandOf(action) in CONTRARY
    ensures var p := Split(action, '-');
      var c := CommandOf(action);
      |c| <= |p[1]| &&
      ReverseEntry(action) == Ok(Some(p[0] + "-" + CONTRARY[c] + p[1][|c|..]))
  {
    var p := Split(action, '-');
    var c := CommandOf(action);
    ValuesWithDash(action);
    ValuesRejoin(p[1]);
    var values := Split(p[1], ' ')[1..];
    ContraryIsPlain(c);
    ReverseEntryUnfold(action, Entry(p[0] + "-", c, Some(values)));
    var tail := if |values| > 0 then " " + Join(values, ' ') else "";
    assert p[1] == c + tail;
    assert p[1][|c|..] == tail;
    var o := CONTRARY[c];
    if |values| > 0 {
      assert p[0] + "-" + o + " " + Join(values, ' ') == p[0] + "-" + o + tail;
    } else {
      assert p[0] + "-" + o + tail == p[0] + "-" + o;
    }
  }

  /** A word of a log entry: no dash and no space. */
  predicate PlainWord(w: string)
  {
    '-' !in w && ' ' !in w
  }

  /** An entry `"<id>-w0 w1 ..."` with one dash parses into its prefix, its first word and the other words. */
  lemma ParseWords(id: string, words: seq<string>)
    requires '-' !in id && |words| >= 1
    requires forall i :: 0 <= i < |words| ==> PlainWord(words[i])
    ensures Split(id + "-" + Join(words, ' '), '-') == [id, Join(words, ' ')]
    ensures Split(Join(words, ' '), ' ') == words
    ensures ParseEntry(id + "-" + Join(words, ' ')) == Entry(id + "-", words[0], Some(words[1..]))
  {
    var rest := Join(words, ' ');
    JoinAvoids(words, ' ', '-');
    SplitOneDash(id, rest);
    SplitJoin(words, ' ');
    ValuesWithDash(id + "-" + rest);
  }

  /** A join seen from its first word. */
  lemma JoinFirst(words: seq<string>, w: string)
    requires |words| >= 1
    ensures Join(words, ' ') == words[0] + (if |words| > 1 then " " + Join(words[1..], ' ') else "")
    ensures Join(words[0 := w], ' ') == w + (if |words| > 1 then " " + Join(words[1..], ' ') else "")
  {
    assert words[0 := w][1..] == words[1..];
  }

  /**
   * A command with an opposite, logged with plain argument words, is replaced
   * by its opposite; the prefix and the arguments are kept.
   */
  lemma ReverseContraryWords(id: string, words: seq<string>)
    requires '-' !in id && |words| >= 1
    requires forall i :: 0 <= i < |words| ==> PlainWord(words[i])
    requires words[0] in CONTRARY
    ensures ReverseEntry(id + "-" + Join(words, ' ')) ==
      Ok(Some(id + "-" + Join(words[0 := CONTRARY[words[0]]], ' ')))
  {
    var o := CONTRARY[words[0]];
    ParseWords(id, words);
    ContraryIsPlain(words[0]);
    ReverseEntryUnfold(id + "-" + Join(words, ' '), Entry(id + "-", words[0], Some(words[1..])));
    JoinFirst(words, o);
    if |words| > 1 {
      assert id + "-" + o + " " + Join(words[1..], ' ') == id + "-" + (o + (" " + Join(words[1..], ' ')));
    } else {
      assert id + "-" + (o + "") == id + "-" + o;
    }
  }

  /** `emergency` is undone by `takeoff`. */
  lemma ReverseEmergency(id: string)
    requires '-' !in id
    ensures ReverseEntry(id + "-emergency") == Ok(Some(id + "-takeoff"))
  {
    ReverseContraryWords(id, ["emergency"]);
    assert ["emergency"][0 := "takeoff"] == ["takeoff"];
    assert id + "-" + "emergency" == id + "-emergency";
    assert id + "-" + "takeoff" == id + "-takeoff";
  }

  /** A dropped command yields nothing. */
  lemma ReverseIgnorable(action: string)
    requires CommandOf(action) in IGNORABLE
    ensures ReverseEntry(action) == Ok(None)
  {
  }

  /** `curve` becomes the placeholder `'Undefined curve'`, without its id. */
  lemma ReverseCurve(action: string)
    requires CommandOf(action) == "curve" && ValuesOf(action).Some?
    ensures ReverseEntry(action) == Ok(Some("Undefined curve"))
  {
    ReverseEntryUnfold(action, ParseEntry(action));
  }

  /** `jump` and commands no table knows are passed through unchanged. */
  lemma ReversePassThrough(action: string)
    requires ValuesOf(action).Some?
    requires var c := CommandOf(action);
      c !in IGNORABLE && c !in CONTRARY && c != "go" && c != "curve" && c != "flip"
    ensures ReverseEntry(action) == Ok(Some(action))
  {
    ReverseEntryUnfold(action, ParseEntry(action));
  }

  lemma ParseFlip(id: string, letter: string)
    requires '-' !in id && PlainWord(letter)
    ensures Split(id + "-flip " + letter, '-') == [id, "flip " + letter]
    ensures ParseEntry(id + "-flip " + letter) == Entry(id + "-", "flip", Some([letter]))
  {
    FlipJoin(id, letter);
    ParseWords(id, ["flip", letter]);
  }

  lemma FlipJoin(id: string, letter: string)
    ensures Join(["flip", letter], ' ') == "flip " + letter
    ensures id + "-flip " + letter == id + "-" + Join(["flip", letter], ' ')
  {
  }

  lemma FlipText(id: string, x: string)
    ensures id + "-" + "flip " + x == id + "-flip " + x
  {
  }

  /** `flip` swaps l with r and f with b and keeps the prefix; other flip letters raise KeyError. */
  lemma ReverseFlip(id: string, letter: string)
    requires '-' !in id && PlainWord(letter)
    ensures letter in FLIP_CONTRARY ==>
      ReverseEntry(id + "-flip " + letter) == Ok(Some(id + "-flip " + FLIP_CONTRARY[letter]))
    ensures letter !in FLIP_CONTRARY ==> ReverseEntry(id + "-flip " + letter) == Err(KeyError)
  {
    ParseFlip(id, letter);
    ReverseEntryUnfold(id + "-flip " + letter, Entry(id + "-", "flip", Some([letter])));
    if letter in FLIP_CONTRARY {
      FlipText(id, FLIP_CONTRARY[letter]);
    }
  }

  /** An entry without a dash but with a space raises IndexError. */
  lemma ReverseNoDashWithSpace(action: string)
    requires '-' !in action && ' ' in action
    ensures ReverseEntry(action) == Err(IndexError)
  {
    SplitNoSep(action, '-');
    assert CommandOf(action) == action;
    assert action !in IGNORABLE by {
      var j :| 0 <= j < |action| && action[j] == ' ';
      assert forall w :: w in IGNORABLE ==> ' ' !in w;
    }
  }

  /**
   * What NegateFirstThree computes: it fails exactly when one of the first three
   * arguments is not a number; otherwise those three are replaced by their
   * negation's text and the others are kept.
   */
  lemma NegateFirstThreeValues(values: seq<string>)
    ensures NegateFirstThree(values).Ok? <==> forall i :: 0 <= i < Min3(|values|) ==> ParseInt(values[i]).Some?
    ensures NegateFirstThree(values).Err? ==> NegateFirstThree(values).error == ValueError
    ensures NegateFirstThree(values).Ok? ==>
      var negated := NegateFirstThree(values).value;
      |negated| == |values| &&
      (forall i :: 0 <= i < Min3(|values|) ==> NegatedText(values[i]) == Some(negated[i])) &&
      (forall i :: 3 <= i < |values| ==> negated[i] == values[i])
  {
  }

  /** `go` keeps the prefix and replaces its arguments by NegateFirstThree's. */
  lemma ReverseGo(action: string)
    requires |Split(action, '-')| >= 2 && CommandOf(action) == "go"
    ensures var id := Split(action, '-')[0];
      var values := Split(Split(action, '-')[1], ' ')[1..];
      ReverseEntry(action) ==
        match NegateFirstThree(values)
        case Ok(negated) => Ok(Some(id + "-go " + Join(negated, ' ')))
        case Err(e) => Err(e)
  {
    var id := Split(action, '-')[0];
    ValuesWithDash(action);
    var values := Split(Split(action, '-')[1], ' ')[1..];
    ReverseEntryUnfold(action, Entry(id + "-", "go", Some(values)));
    if NegateFirstThree(values).Ok? {
      GoText(id, Join(NegateFirstThree(values).value, ' '));
    }
  }

  lemma GoText(id: string, x: string)
    ensures id + "-" + "go " + x == id + "-go " + x
  {
  }

  lemma ParseNegativeGo(id: string, a: int, rest: string)
    requires '-' !in id && a > 0
    ensures ParseEntry(id + "-go " + IntToStr(-a) + rest) == Entry(id + "-", "go", Some([""]))
  {
    var tail := NatToStr(a) + rest;
    var action := id + "-go " + IntToStr(-a) + rest;
    assert action == id + ['-'] + ("go " + ['-'] + tail);
    SplitCons(id, '-', "go " + ['-'] + tail);
    SplitCons("go ", '-', tail);
    assert Split(action, '-')[1] == "go ";
    assert "go " == "go" + [' '] + "";
    SplitCons("go", ' ', "");
    assert action[|id| + 3] == ' ';
  }

  /** A negated offset cannot be reversed again: the value after `go ` is cut at its minus sign. */
  lemma ReverseNegativeGo(id: string, a: int, rest: string)
    requires '-' !in id && a > 0
    ensures ReverseEntry(id + "-go " + IntToStr(-a) + rest) == Err(ValueError)
  {
    ParseNegativeGo(id, a, rest);
    ReverseEntryUnfold(id + "-go " + IntToStr(-a) + rest, Entry(id + "-", "go", Some([""])));
    assert ParseInt("") == None;
  }

  // ---------------------------------------------------------------------
  // Reversing twice
  // ---------------------------------------------------------------------

  const FLIPS: set<string> := {"flip l", "flip r", "flip f", "flip b"}

  /** A single-dash entry whose command has an opposite other than `emergency`, or a one-letter flip. */
  predicate Reversible(action: string)
  {
    var p := Split(action, '-');
    |p| == 2 &&
    var c := Split(p[1], ' ')[0];
    (c in CONTRARY && c != "emergency") || p[1] in FLIPS
  }

  /** Opposites are plain words, and apart from `emergency` each is undone by its own opposite. */
  lemma ContraryInvolution(c: string)
    requires c in CONTRARY && c != "emergency"
    ensures PlainWord(CONTRARY[c]) && CONTRARY[c] in CONTRARY && CONTRARY[c] != "emergency"
    ensures CONTRARY[CONTRARY[c]] == c
  {
  }

  /** A reversible entry seen as a prefix and plain words. */
  lemma ReversibleWords(action: string)
    requires Reversible(action)
    ensures var p := Split(action, '-');
      var words := Split(p[1], ' ');
      '-' !in p[0] && (forall i :: 0 <= i < |words| ==> PlainWord(words[i])) &&
      action == p[0] + "-" + Join(words, ' ')
  {
    var p := Split(action, '-');
    JoinSplit(action, '-');
    assert Join(p, '-') == p[0] + ['-'] + p[1];
    SplitAvoids(p[1], ' ', '-');
    JoinSplit(p[1], ' ');
  }

  lemma WordsReversible(id: string, words: seq<string>)
    requires '-' !in id && |words| >= 1
    requires forall i :: 0 <= i < |words| ==> PlainWord(words[i])
    requires words[0] in CONTRARY && words[0] != "emergency"
    ensures Reversible(id + "-" + Join(words, ' '))
  {
    var action := id + "-" + Join(words, ' ');
    ParseWords(id, words);
    var p := Split(action, '-');
    assert |p| == 2 && p[1] == Join(words, ' ');
    assert Split(p[1], ' ')[0] == words[0];
  }

  lemma FlipsText(letter: string)
    requires letter in FLIP_CONTRARY
    ensures "flip " + letter in FLIPS && PlainWord(letter)
  {
    if letter == "l" { assert "flip " + letter == "flip l"; }
    else if letter == "r" { assert "flip " + letter == "flip r"; }
    else if letter == "f" { assert "flip " + letter == "flip f"; }
    else { assert "flip " + letter == "flip b"; }
  }

  lemma FlipReversible(id: string, letter: string)
    requires '-' !in id && letter in FLIP_CONTRARY
    ensures Reversible(id + "-flip " + letter)
  {
    FlipsText(letter);
    ParseFlip(id, letter);
  }

  lemma InvolutionContrary(id: string, words: seq<string>)
    requires '-' !in id && |words| >= 1
    requires forall i :: 0 <= i < |words| ==> PlainWord(words[i])
    requires words[0] in CONTRARY && words[0] != "emergency"
    ensures var b := id + "-" + Join(words[0 := CONTRARY[words[0]]], ' ');
      ReverseEntry(id + "-" + Join(words, ' ')) == Ok(Some(b)) &&
      Reversible(b) && ReverseEntry(b) == Ok(Some(id + "-" + Join(words, ' ')))
  {
    var c := words[0];
    ContraryInvolution(c);
    var flipped := words[0 := CONTRARY[c]];
    ReverseContraryWords(id, words);
    WordsReversible(id, flipped);
    ReverseContraryWords(id, flipped);
    assert flipped[0 := CONTRARY[flipped[0]]] == words;
  }

  lemma FlipInvolution(letter: string)
    requires letter in FLIP_CONTRARY
    ensures FLIP_CONTRARY[letter] in FLIP_CONTRARY && FLIP_CONTRARY[FLIP_CONTRARY[letter]] == letter
  {
  }

  lemma InvolutionFlip(id: string, letter: string)
    requires '-' !in id && letter in FLIP_CONTRARY
    ensures var b := id + "-flip " + FLIP_CONTRARY[letter];
      ReverseEntry(id + "-flip " + letter) == Ok(Some(b)) &&
      Reversible(b) && ReverseEntry(b) == Ok(Some(id + "-flip " + letter))
  {
    var l2 := FLIP_CONTRARY[letter];
    FlipInvolution(letter);
    FlipsText(letter);
    FlipsText(l2);
    ReverseFlip(id, letter);
    ReverseFlip(id, l2);
    FlipReversible(id, l2);
  }

  /** The reversal of a reversible entry is reversible and reverses back to the entry. */
  lemma ReverseEntryInvolution(action: string)
    requires Reversible(action)
    ensures ReverseEntry(action).Ok? && ReverseEntry(action).value.Some?
    ensures var b := ReverseEntry(action).value.value;
      Reversible(b) && ReverseEntry(b) == Ok(Some(action))
  {
    var p := Split(action, '-');
    var words := Split(p[1], ' ');
    ReversibleWords(action);
    if words[0] in CONTRARY && words[0] != "emergency" {
      InvolutionContrary(p[0], words);
    } else {
      ReversibleFlip(action);
      InvolutionFlip(p[0], p[1][5..]);
    }
  }

  lemma ReversibleFlip(action: string)
    requires Reversible(action)
    requires var p := Split(action, '-'); p[1] in FLIPS
    ensures var p := Split(action, '-');
      |p[1]| == 6 && '-' !in p[0] && p[1][5..] in FLIP_CONTRARY && action == p[0] + "-flip " + p[1][5..]
  {
    var p := Split(action, '-');
    FlipsShape(p[1]);
    JoinSplit(action, '-');
    assert Join(p, '-') == p[0] + ['-'] + p[1];
    DashFlipText(p[0], p[1][5..]);
  }

  lemma FlipsShape(t: string)
    requires t in FLIPS
    ensures |t| == 6 && t == "flip " + t[5..] && t[5..] in FLIP_CONTRARY
  {
    if t == "flip l" { assert t[5..] == "l"; }
    else if t == "flip r" { assert t[5..] == "r"; }
    else if t == "flip f" { assert t[5..] == "f"; }
    else { assert t[5..] == "b"; }
  }

  lemma DashFlipText(id: string, x: string)
    ensures id + ['-'] + ("flip " + x) == id + "-flip " + x
  {
  }

  /**
   * When `step` turns every entry of a log into one entry, the reversal
   * succeeds and holds, at position `j`, the image of the `j`-th entry from
   * the end.
   */
  lemma {:induction false} ReverseByTotal(step: string -> Result<Option<string>, Exc>, actions: seq<string>)
    requires forall i :: 0 <= i < |actions| ==> step(actions[i]).Ok? && step(actions[i]).value.Some?
    ensures ReverseBy(step, actions).Ok?
    ensures var r := ReverseBy(step, actions).value;
      |r| == |actions| &&
      forall j :: 0 <= j < |r| ==> r[j] == step(actions[|actions| - 1 - j]).value.value
    decreases |actions|
  {
    if |actions| > 0 {
      var n := |actions|;
      var init := actions[..n - 1];
      var last := actions[n - 1];
      assert forall i :: 0 <= i < n - 1 ==> init[i] == actions[i];
      ReverseByTotal(step, init);
      var r0 := ReverseBy(step, init).value;
      var b := step(last).value.value;
      assert ReverseBy(step, actions) == Ok([b] + r0);
      var r := [b] + r0;
      forall j | 0 <= j < |r| ensures r[j] == step(actions[n - 1 - j]).value.value {
        if j > 0 {
          assert r[j] == r0[j - 1];
          assert init[|init| - 1 - (j - 1)] == actions[n - 1 - j];
        }
      }
    }
  }

  /**
   * When `step` maps every good entry to a good entry that maps back, a log
   * of good entries reversed twice is itself.
   */
  lemma ReverseByInvolution(step: string -> Result<Option<string>, Exc>, good: string -> bool,
                            actions: seq<string>)
    requires forall x :: good(x) ==>
      step(x).Ok? && step(x).value.Some? && good(step(x).value.value) && step(step(x).value.value) == Ok(Some(x))
    requires forall i :: 0 <= i < |actions| ==> good(actions[i])
    ensures ReverseBy(step, actions).Ok?
    ensures var r := ReverseBy(step, actions).value;
      |r| == |actions| && (forall j :: 0 <= j < |r| ==> good(r[j])) && ReverseBy(step, r) == Ok(actions)
  {
    ReverseByTotal(step, actions);
    var r := ReverseBy(step, actions).value;
    var n := |actions|;
    assert forall j :: 0 <= j < n ==> good(r[j]) && step(r[j]) == Ok(Some(actions[n - 1 - j]));
    ReverseByTotal(step, r);
    var back := ReverseBy(step, r).value;
    forall j | 0 <= j < n ensures back[j] == actions[j] {
      assert back[j] == step(r[n - 1 - j]).value.value;
    }
    assert back == actions;
  }

  /**
   * Reversing a log of reversible entries twice gives the log back; the
   * reversed log has one entry per entry and is reversible too.
   */
  lemma ReverseTwice(actions: seq<string>)
    requires forall i :: 0 <= i < |actions| ==> Reversible(actions[i])
    ensures ReverseAll(actions).Ok?
    ensures var r := ReverseAll(actions).value;
      |r| == |actions| && (forall j :: 0 <= j < |r| ==> Reversible(r[j])) && ReverseAll(r) == Ok(actions)
  {
    forall x | Reversible(x)
      ensures ReverseEntry(x).Ok? && ReverseEntry(x).value.Some?
      ensures Reversible(ReverseEntry(x).value.value) && ReverseEntry(ReverseEntry(x).value.value) == Ok(Some(x))
    {
      ReverseEntryInvolution(x);
    }
    ReverseByInvolution(ReverseEntry, Reversible, actions);
  }

  // ---------------------------------------------------------------------
  // Key bindings
  // ---------------------------------------------------------------------

  /** A key as getch or the UI hands it over: an integer key code or the text of the key. */
  datatype Key = KeyCode(code: int) | KeyText(text: string)

  const INT_COMMANDS: map<int, string> :=
    map[111 := "forward 30", 113 := "left 30", 114 := "right 30", 116 := "back 30"]

  const STR_COMMANDS: map<string, string> :=
    map["a" := "sn?", " " := "takeoff", "+" := "land", "8" := "up 30", "2" := "down 30",
        "6" := "cw 30", "4" := "ccw 30", "b" := "battery?", "f" := "flip f",
        "H" := "forward 30", "A" := "forward 30", "M" := "right 30", "C" := "right 30",
        "P" := "back 30", "B" := "back 30", "K" := "left 30", "D" := "left 30"]

  /** command_from_key: the key-code table is consulted first, then the text table; None for any other key. */
  function CommandFromKey(key: Key): (r: Option<string>)
    ensures r.Some? <==>
      (key.KeyCode? && key.code in INT_COMMANDS) || (key.KeyText? && key.text in STR_COMMANDS)
    ensures key.KeyCode? && key.code in INT_COMMANDS ==> r == Some(INT_COMMANDS[key.code])
    ensures key.KeyText? && key.text in STR_COMMANDS ==> r == Some(STR_COMMANDS[key.text])
  {
    var byCode := if key.KeyCode? && key.code in INT_COMMANDS then Some(INT_COMMANDS[key.code]) else None;
    if byCode.None? then
      if key.KeyText? && key.text in STR_COMMANDS then Some(STR_COMMANDS[key.text]) else None
    else byCode
  }

  /** The commands any key can produce. */
  const KEY_COMMANDS: set<string> :=
    {"forward 30", "left 30", "right 30", "back 30", "sn?", "takeoff", "land",
     "up 30", "down 30", "cw 30", "ccw 30", "battery?", "flip f"}

  lemma KeyCommandsKnown(key: Key)
    ensures CommandFromKey(key).Some? ==> CommandFromKey(key).value in KEY_COMMANDS
  {
  }

  /** The two queries a key can send. */
  const KEY_QUERIES: set<string> := {"sn?", "battery?"}

  /** The moves a key can send, each by 30 cm or 30 degrees. */
  const KEY_MOVES: set<string> :=
    {"forward 30", "left 30", "right 30", "back 30", "up 30", "down 30", "cw 30", "ccw 30"}

  lemma KeyCommandsSplit(c: string)
    requires c in KEY_COMMANDS
    ensures c in KEY_QUERIES || c in KEY_MOVES || c == "takeoff" || c == "land" || c == "flip f"
  {
  }

  /** A move is an opposite-bearing word followed by ` 30`. */
  lemma MoveWord(c: string) returns (w: string)
    requires c in KEY_MOVES
    ensures w in CONTRARY && w != "emergency" && PlainWord(w) && c == w + " 30"
  {
    if c == "forward 30" { w := "forward"; assert c == "forward" + " 30"; }
    else if c == "left 30" { w := "left"; assert c == "left" + " 30"; }
    else if c == "right 30" { w := "right"; assert c == "right" + " 30"; }
    else if c == "back 30" { w := "back"; assert c == "back" + " 30"; }
    else if c == "up 30" { w := "up"; assert c == "up" + " 30"; }
    else if c == "down 30" { w := "down"; assert c == "down" + " 30"; }
    else if c == "cw 30" { w := "cw"; assert c == "cw" + " 30"; }
    else { w := "ccw"; assert c == "ccw" + " 30"; }
  }

  lemma JoinMove(w: string)
    ensures Join([w, "30"], ' ') == w + " 30"
  {
  }

  lemma QueryText(id: string, c: string)
    requires '-' !in id && c in KEY_QUERIES
    ensures CommandOf(id + "-" + c) == c && c in IGNORABLE
  {
    SplitOneDash(id, c);
    SplitNoSep(c, ' ');
  }

  lemma FlipKeyText(id: string)
    ensures id + "-flip " + "f" == id + "-" + "flip f"
  {
  }

  /** A key command logged under a drone prefix is dropped (a query) or reversible. */
  lemma KeyEntryReversible(id: string, c: string)
    requires '-' !in id && c in KEY_COMMANDS
    ensures c in KEY_QUERIES ==> ReverseEntry(id + "-" + c) == Ok(None)
    ensures c !in KEY_QUERIES ==> Reversible(id + "-" + c)
  {
    KeyCommandsSplit(c);
    if c in KEY_QUERIES {
      QueryText(id, c);
      ReverseIgnorable(id + "-" + c);
    } else if c == "flip f" {
      FlipReversible(id, "f");
      FlipKeyText(id);
    } else if c in KEY_MOVES {
      var w := MoveWord(c);
      JoinMove(w);
      WordsReversible(id, [w, "30"]);
    } else {
      assert Join([c], ' ') == c;
      WordsReversible(id, [c]);
    }
  }

  /**
   * Every command a key sends, once logged as `"<index>-<command>"`, is
   * either dropped by the reversal (the two queries) or reversible: undone
   * by it and restored by a second reversal.
   */
  lemma KeyCommandReversible(key: Key, index: nat)
    requires CommandFromKey(key).Some?
    ensures var c := CommandFromKey(key).value;
      c in KEY_QUERIES ==> ReverseEntry(IntToStr(index) + "-" + c) == Ok(None)
    ensures var c := CommandFromKey(key).value;
      c !in KEY_QUERIES ==> Reversible(IntToStr(index) + "-" + c)
  {
    KeyCommandsKnown(key);
    KeyEntryReversible(IntToStr(index), CommandFromKey(key).value);
  }
}
