/**
 * The pure rules the drone classes apply to their state: the liveness sweep
 * over the fleet's address list, the parse of a telemetry datagram, and the
 * video frame-boundary rule that decides when gathered datagrams are handed
 * to the decoder.
 */
module Fleet {
  import opened PyBase
  import opened VideoStreams

  // ---------------------------------------------------------------------
  // The liveness sweep of a swarm
  // ---------------------------------------------------------------------

  /** One drone of a swarm: its IP address and the slot holding its last state. */
  datatype Slot = Slot(address: string, parameters: seq<string>)

  /**
   * The addresses and the parameter slots, position by position (an address
   * without a slot of its own gets an empty one; the drone classes keep both
   * lists the same length).
   */
  function Zip(addresses: seq<string>, parameters: seq<seq<string>>): (r: seq<Slot>)
    ensures |r| == |addresses|
    ensures |parameters| == |addresses| ==> forall i :: 0 <= i < |r| ==> r[i] == Slot(addresses[i], parameters[i])
  {
    seq(|addresses|, i requires 0 <= i < |addresses| => Slot(addresses[i], if i < |parameters| then parameters[i] else []))
  }

  function Addresses(slots: seq<Slot>): (r: seq<string>)
    ensures |r| == |slots|
    ensures forall i :: 0 <= i < |r| ==> r[i] == slots[i].address
  {
    seq(|slots|, i requires 0 <= i < |slots| => slots[i].address)
  }

  function Parameters(slots: seq<Slot>): (r: seq<seq<string>>)
    ensures |r| == |slots|
    ensures forall i :: 0 <= i < |r| ==> r[i] == slots[i].parameters
  {
    seq(|slots|, i requires 0 <= i < |slots| => slots[i].parameters)
  }

  /** The list without its element at position i (`del xs[i]`). */
  function Remove<T>(xs: seq<T>, i: nat): (r: seq<T>)
    requires i < |xs|
    ensures |r| == |xs| - 1
  {
    xs[..i] + xs[i + 1..]
  }

  /** Deleting at the same position from both lists deletes that slot. */
  lemma ZipRemove(addresses: seq<string>, parameters: seq<seq<string>>, i: nat)
    requires |addresses| == |parameters| && i < |addresses|
    ensures Zip(Remove(addresses, i), Remove(parameters, i)) == Remove(Zip(addresses, parameters), i)
  {
    var z := Zip(addresses, parameters);
    var l := Zip(Remove(addresses, i), Remove(parameters, i));
    var rz := Remove(z, i);
    forall j | 0 <= j < |l| ensures l[j] == rz[j] {
      if j < i {
        assert rz[j] == z[j];
      } else {
        assert rz[j] == z[j + 1];
      }
    }
  }

  lemma ZipProjections(slots: seq<Slot>)
    ensures Zip(Addresses(slots), Parameters(slots)) == slots
  {
  }

  /**
   * `for index, ip in enumerate(addresses)` with `del` at the current index:
   * positions below i have been examined; an unreachable slot is deleted and the
   * iterator moves on to i + 1 anyway.
   */
  function SweepFrom(slots: seq<Slot>, i: nat, reachable: set<string>): (r: seq<Slot>)
    decreases |slots| - i
  {
    if i >= |slots| then slots
    else if slots[i].address in reachable then SweepFrom(slots, i + 1, reachable)
    else SweepFrom(Remove(slots, i), i + 1, reachable)
  }

  /** The slots `test_drone_connection` leaves in place. */
  function Sweep(slots: seq<Slot>, reachable: set<string>): seq<Slot>
  {
    SweepFrom(slots, 0, reachable)
  }

  /**
   * An independent description of the sweep, front to back: a reachable slot
   * stays; an unreachable one goes and the slot sliding into its place is kept
   * without being examined.
   */
  function Skipping(slots: seq<Slot>, reachable: set<string>): seq<Slot>
    decreases |slots|
  {
    if |slots| == 0 then []
    else if slots[0].address in reachable then [slots[0]] + Skipping(slots[1..], reachable)
    else if |slots| == 1 then []
    else [slots[1]] + Skipping(slots[2..], reachable)
  }

  lemma {:induction false} SweepFromSkipping(slots: seq<Slot>, i: nat, reachable: set<string>)
    requires i <= |slots|
    ensures SweepFrom(slots, i, reachable) == slots[..i] + Skipping(slots[i..], reachable)
    decreases |slots| - i
  {
    if i == |slots| {
      assert slots[..i] == slots;
    } else if slots[i].address in reachable {
      SweepFromSkipping(slots, i + 1, reachable);
      assert slots[..i + 1] == slots[..i] + [slots[i]];
      assert slots[i..][1..] == slots[i + 1..];
    } else if i + 1 == |slots| {
      var rest := Remove(slots, i);
      assert rest == slots[..i];
    } else {
      var rest := Remove(slots, i);
      SweepFromSkipping(rest, i + 1, reachable);
      assert rest[..i + 1] == slots[..i] + [slots[i + 1]];
      assert rest[i + 1..] == slots[i + 2..];
      assert slots[i..][2..] == slots[i + 2..];
      assert slots[i..][1] == slots[i + 1];
    }
  }

  /** The sweep is the front-to-back description. */
  lemma SweepIsSkipping(slots: seq<Slot>, reachable: set<string>)
    ensures Sweep(slots, reachable) == Skipping(slots, reachable)
  {
    SweepFromSkipping(slots, 0, reachable);
    assert slots[0..] == slots;
  }

  /** The reachable slots of a list, in order. */
  function Reachable(slots: seq<Slot>, reachable: set<string>): seq<Slot>
    decreases |slots|
  {
    if |slots| == 0 then []
    else (if slots[0].address in reachable then [slots[0]] else []) + Reachable(slots[1..], reachable)
  }

  /** `a` is `b` with some elements deleted, the rest in their order. */
  predicate Subsequence<T(==)>(a: seq<T>, b: seq<T>)
    decreases |b|
  {
    |a| == 0 || (|b| > 0 && ((a[0] == b[0] && Subsequence(a[1..], b[1..])) || Subsequence(a, b[1..])))
  }

  lemma ReachableCons(x: Slot, rest: seq<Slot>, reachable: set<string>)
    ensures Reachable([x] + rest, reachable) == (if x.address in reachable then [x] else []) + Reachable(rest, reachable)
  {
    assert ([x] + rest)[1..] == rest;
  }

  lemma {:induction false} SkippingKeepsReachable(slots: seq<Slot>, reachable: set<string>)
    ensures Reachable(Skipping(slots, reachable), reachable) == Reachable(slots, reachable)
    decreases |slots|
  {
    if |slots| == 0 {
    } else if slots[0].address in reachable {
      SkippingKeepsReachable(slots[1..], reachable);
      ReachableCons(slots[0], Skipping(slots[1..], reachable), reachable);
    } else if |slots| == 1 {
      assert slots[1..] == [];
    } else {
      SkippingKeepsReachable(slots[2..], reachable);
      ReachableCons(slots[1], Skipping(slots[2..], reachable), reachable);
      assert slots[1..][1..] == slots[2..];
      assert Reachable(slots, reachable) == Reachable(slots[1..], reachable);
    }
  }

  lemma {:induction false} SkippingSubsequence(slots: seq<Slot>, reachable: set<string>)
    ensures Subsequence(Skipping(slots, reachable), slots)
    decreases |slots|
  {
    var r := Skipping(slots, reachable);
    if |slots| == 0 {
    } else if slots[0].address in reachable {
      SkippingSubsequence(slots[1..], reachable);
      assert r[0] == slots[0] && r[1..] == Skipping(slots[1..], reachable);
    } else if |slots| == 1 {
    } else {
      var tail := slots[1..];
      SkippingSubsequence(slots[2..], reachable);
      assert tail[1..] == slots[2..];
      assert r[0] == tail[0] && r[1..] == Skipping(tail[1..], reachable);
      assert Subsequence(r, tail);
    }
  }

  /**
   * What the sweep deletes is unreachable: the survivors are the original
   * slots in their order, and every reachable slot is among them.
   */
  lemma SweepKeepsReachable(slots: seq<Slot>, reachable: set<string>)
    ensures Subsequence(Sweep(slots, reachable), slots)
    ensures Reachable(Sweep(slots, reachable), reachable) == Reachable(slots, reachable)
  {
    SweepIsSkipping(slots, reachable);
    SkippingKeepsReachable(slots, reachable);
    SkippingSubsequence(slots, reachable);
  }

  /** The slot sliding into a deleted one is not examined: of two unreachable drones one stays. */
  lemma SweepSkipsNext(a: Slot, b: Slot, reachable: set<string>)
    requires a.address !in reachable && b.address !in reachable
    ensures Sweep([a, b], reachable) == [b]
  {
    assert Remove([a, b], 0) == [b];
    assert SweepFrom([a, b], 0, reachable) == SweepFrom([b], 1, reachable);
  }

  /**
   * The fleet is found empty exactly when it was empty already or its only
   * drone is unreachable: with two drones or more one always stays.
   */
  lemma SweepEmpty(slots: seq<Slot>, reachable: set<string>)
    ensures Sweep(slots, reachable) == [] <==>
      |slots| == 0 || (|slots| == 1 && slots[0].address !in reachable)
  {
    SweepIsSkipping(slots, reachable);
  }

  /** With every drone reachable nothing is deleted. */
  lemma {:induction false} SweepAllReachable(slots: seq<Slot>, reachable: set<string>)
    requires forall i :: 0 <= i < |slots| ==> slots[i].address in reachable
    ensures Sweep(slots, reachable) == slots
  {
    SweepIsSkipping(slots, reachable);
    SkippingAllReachable(slots, reachable);
  }

  lemma {:induction false} SkippingAllReachable(slots: seq<Slot>, reachable: set<string>)
    requires forall i :: 0 <= i < |slots| ==> slots[i].address in reachable
    ensures Skipping(slots, reachable) == slots
    decreases |slots|
  {
    if |slots| > 0 {
      SkippingAllReachable(slots[1..], reachable);
      assert slots == [slots[0]] + slots[1..];
    }
  }

  // ---------------------------------------------------------------------
  // Telemetry
  // ---------------------------------------------------------------------

  /** `text.split(';')[:-1]`: the fields of a state datagram. */
  function ParseTelemetry(text: string): (r: seq<string>)
    ensures forall i :: 0 <= i < |r| ==> ';' !in r[i]
  {
    var parts := Split(text, ';');
    parts[..|parts| - 1]
  }

  /** A datagram ending in ';' is its fields joined with ';' plus the final ';'. */
  lemma TelemetryRoundTrip(text: string)
    requires |text| > 0 && text[|text| - 1] == ';'
    ensures Join(ParseTelemetry(text), ';') + ";" == text
  {
    var parts := Split(text, ';');
    var n := |parts|;
    JoinSplit(text, ';');
    SplitCountsSep(text, ';');
    assert n >= 2;
    var init := parts[..n - 1];
    var last := parts[n - 1];
    assert parts == init + [last];
    JoinSnoc(init, last, ';');
    assert text == Join(init, ';') + [';'] + last;
    assert last == [];
  }

  /** A datagram has no fields exactly when it holds no ';'. */
  lemma TelemetryEmpty(text: string)
    ensures ParseTelemetry(text) == [] <==> ';' !in text
  {
    SplitCountsSep(text, ';');
  }

  // ---------------------------------------------------------------------
  // The video frame boundary
  // ---------------------------------------------------------------------

  /** A full datagram: more of the same frame is still to come. */
  const DATAGRAM_SIZE: nat := 1460

  /** The accumulator after one datagram, and what is handed to the decoder. */
  datatype Gathered = Gathered(allData: seq<byte>, handOff: Option<seq<byte>>)

  function FrameStep(allData: seq<byte>, datagram: seq<byte>): Gathered
  {
    if |datagram| != DATAGRAM_SIZE then Gathered([], Some(allData + datagram))
    else Gathered(allData + datagram, None)
  }

  /** The receive loop over a series of datagrams: final accumulator and hand-offs in order. */
  datatype Run = Run(allData: seq<byte>, handOffs: seq<seq<byte>>)

  function FrameRun(allData: seq<byte>, datagrams: seq<seq<byte>>): Run
    decreases |datagrams|
  {
    if |datagrams| == 0 then Run(allData, [])
    else
      var g := FrameStep(allData, datagrams[0]);
      var rest := FrameRun(g.allData, datagrams[1..]);
      Run(rest.allData, (if g.handOff.Some? then [g.handOff.value] else []) + rest.handOffs)
  }

  /**
   * A full datagram is only gathered; any other length ends the frame, which
   * is handed off whole, header bytes included, and the accumulator restarts.
   */
  lemma FrameStepRule(allData: seq<byte>, datagram: seq<byte>)
    ensures var g := FrameStep(allData, datagram);
      (g.handOff.None? <==> |datagram| == DATAGRAM_SIZE) &&
      (g.handOff.Some? ==> g.handOff.value == allData + datagram && g.allData == []) &&
      (g.handOff.None? ==> g.allData == allData + datagram)
  {
  }

  /** The accumulator only ever holds whole datagrams. */
  lemma {:induction false} FrameRunWhole(allData: seq<byte>, datagrams: seq<seq<byte>>)
    requires |allData| % DATAGRAM_SIZE == 0
    ensures |FrameRun(allData, datagrams).allData| % DATAGRAM_SIZE == 0
    decreases |datagrams|
  {
    if |datagrams| > 0 {
      var g := FrameStep(allData, datagrams[0]);
      assert |g.allData| % DATAGRAM_SIZE == 0 by {
        if |datagrams[0]| == DATAGRAM_SIZE {
          assert |g.allData| == |allData| + DATAGRAM_SIZE;
        }
      }
      FrameRunWhole(g.allData, datagrams[1..]);
    }
  }

  /** No byte is lost or reordered: the hand-offs and what is left are what arrived. */
  lemma {:induction false} FrameRunConserves(allData: seq<byte>, datagrams: seq<seq<byte>>)
    ensures Concat(FrameRun(allData, datagrams).handOffs) + FrameRun(allData, datagrams).allData == allData + Concat(datagrams)
    decreases |datagrams|
  {
    if |datagrams| > 0 {
      var d := datagrams[0];
      var tail := datagrams[1..];
      var g := FrameStep(allData, d);
      FrameRunConserves(g.allData, tail);
      ConservesStep(allData, d, tail, FrameRun(g.allData, tail));
    }
  }

  lemma ConservesStep(allData: seq<byte>, d: seq<byte>, tail: seq<seq<byte>>, rest: Run)
    requires Concat(rest.handOffs) + rest.allData == FrameStep(allData, d).allData + Concat(tail)
    ensures var g := FrameStep(allData, d);
      Concat((if g.handOff.Some? then [g.handOff.value] else []) + rest.handOffs) + rest.allData
        == allData + (d + Concat(tail))
  {
    var g := FrameStep(allData, d);
    if g.handOff.Some? {
      ConcatCons(allData + d, rest.handOffs);
      Regroup(allData + d, Concat(rest.handOffs), rest.allData, Concat(tail));
      Regroup(allData, d, Concat(tail), []);
    } else {
      assert [] + rest.handOffs == rest.handOffs;
      Regroup(allData, d, Concat(tail), []);
    }
  }

  lemma Regroup(a: seq<byte>, b: seq<byte>, c: seq<byte>, e: seq<byte>)
    ensures a + b + c == a + (b + c)
    ensures b + c == e ==> a + b + c == a + e
  {
  }

  /** One hand-off per datagram that is not full. */
  lemma {:induction false} FrameRunCount(allData: seq<byte>, datagrams: seq<seq<byte>>)
    ensures |FrameRun(allData, datagrams).handOffs| == |EndingDatagrams(datagrams)|
    decreases |datagrams|
  {
    if |datagrams| > 0 {
      FrameRunCount(FrameStep(allData, datagrams[0]).allData, datagrams[1..]);
    }
  }

  /** The datagrams that end a frame, in order. */
  function EndingDatagrams(datagrams: seq<seq<byte>>): seq<seq<byte>>
    decreases |datagrams|
  {
    if |datagrams| == 0 then []
    else (if |datagrams[0]| != DATAGRAM_SIZE then [datagrams[0]] else []) + EndingDatagrams(datagrams[1..])
  }
}
