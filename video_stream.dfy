/**
 * The in-memory byte stream the video decoder reads from: a first-in
 * first-out queue of datagram payloads.  `AddData` queues one payload,
 * `Read` drains whole chunks from the front while the bytes gathered stay
 * below the requested size, and `Seek` is refused.
 */
module VideoStreams {
  import opened PyBase

  /** The bytes of a queue of chunks, front first. */
  function Concat(chunks: seq<seq<byte>>): (r: seq<byte>)
    decreases |chunks|
  {
    if |chunks| == 0 then [] else chunks[0] + Concat(chunks[1..])
  }

  lemma {:induction false} ConcatSplit(chunks: seq<seq<byte>>, k: nat)
    requires k <= |chunks|
    ensures Concat(chunks[..k]) + Concat(chunks[k..]) == Concat(chunks)
    decreases k
  {
    if k > 0 {
      ConcatSplit(chunks[1..], k - 1);
      assert chunks[..k][1..] == chunks[1..][..k - 1];
      assert chunks[1..][k - 1..] == chunks[k..];
    } else {
      assert chunks[..0] == [];
    }
  }

  lemma ConcatCons(c: seq<byte>, chunks: seq<seq<byte>>)
    ensures Concat([c] + chunks) == c + Concat(chunks)
  {
    assert ([c] + chunks)[1..] == chunks;
  }

  lemma ConcatSnoc(chunks: seq<seq<byte>>, c: seq<byte>)
    ensures Concat(chunks + [c]) == Concat(chunks) + c
  {
    ConcatSplit(chunks + [c], |chunks|);
    assert (chunks + [c])[..|chunks|] == chunks;
    assert (chunks + [c])[|chunks|..] == [c];
    assert Concat([c]) == c + Concat([]);
  }

  /**
   * How many chunks `read(size)` takes from the front of `queue` when `taken`
   * bytes are already gathered: the next chunk is taken while the total stays
   * strictly below `size`.
   */
  function DrainCount(queue: seq<seq<byte>>, taken: int, size: int): (k: nat)
    ensures k <= |queue|
    decreases |queue|
  {
    if |queue| > 0 && taken + |queue[0]| < size then 1 + DrainCount(queue[1..], taken + |queue[0]|, size)
    else 0
  }

  /** The number of chunks `read(size)` removes from a queue. */
  function ReadCount(queue: seq<seq<byte>>, size: int): (k: nat)
    ensures k <= |queue|
  {
    DrainCount(queue, 0, size)
  }

  /**
   * Every chunk taken keeps the gathered total below `size`, and the first
   * chunk left behind (if any) would have reached it.
   */
  lemma {:induction false} DrainCountBounds(queue: seq<seq<byte>>, taken: int, size: int)
    ensures var k := DrainCount(queue, taken, size);
      (k > 0 ==> taken + |Concat(queue[..k])| < size) &&
      (k < |queue| ==> taken + |Concat(queue[..k])| + |queue[k]| >= size)
    decreases |queue|
  {
    var k := DrainCount(queue, taken, size);
    if k > 0 {
      var rest := queue[1..];
      DrainCountBounds(rest, taken + |queue[0]|, size);
      assert queue[..k][1..] == rest[..k - 1];
      assert queue[k..] == rest[k - 1..];
      if k < |queue| {
        assert queue[k] == rest[k - 1];
      }
    } else {
      assert queue[..0] == [];
    }
  }

  /**
   * `read(size)` stops at the first chunk that would bring the total to
   * `size` or more: what it returns is shorter than `size` unless empty, and
   * adding the next remaining chunk would not be.
   */
  lemma ReadBounds(queue: seq<seq<byte>>, size: int)
    ensures var k := ReadCount(queue, size);
      (k > 0 ==> |Concat(queue[..k])| < size) &&
      (k < |queue| ==> |Concat(queue[..k])| + |queue[k]| >= size)
  {
    DrainCountBounds(queue, 0, size);
  }

  /** Nothing is read from an empty queue, nor when the front chunk alone reaches `size`. */
  lemma ReadNothing(queue: seq<seq<byte>>, size: int)
    requires |queue| == 0 || |queue[0]| >= size
    ensures ReadCount(queue, size) == 0
  {
  }

  /** The payload `add_data` queues: the datagram without its first two bytes. */
  function Payload(data: seq<byte>): (r: seq<byte>)
    ensures |data| >= 2 ==> data[..2] + r == data && |r| == |data| - 2
    ensures |data| < 2 ==> r == []
  {
    SliceFrom(data, 2)
  }

  class VideoStream {
    var queue: seq<seq<byte>>
    var closed: bool

    /** A new stream is open and holds nothing. */
    constructor ()
      ensures queue == [] && !closed
    {
      queue := [];
      closed := false;
    }

    /** Queue one datagram's payload at the back. */
    method AddData(data: seq<byte>)
      modifies this`queue
      ensures queue == old(queue) + [Payload(data)]
      ensures closed == old(closed)
    {
      var payload := SliceFrom(data, 2);
      queue := queue + [payload];
    }

    /**
     * Take whole chunks from the front while the bytes gathered stay below
     * `size`; what is returned followed by what is left is what was queued.
     */
    method Read(size: int) returns (data: seq<byte>)
      modifies this`queue
      ensures var k := ReadCount(old(queue), size);
        data == Concat(old(queue)[..k]) && queue == old(queue)[k..]
      ensures data + Concat(queue) == Concat(old(queue))
      ensures closed == old(closed)
    {
      ghost var start := queue;
      ghost var i := 0;
      data := [];
      while |queue| > 0 && |data| + |queue[0]| < size
        invariant 0 <= i <= |start| && queue == start[i..]
        invariant data == Concat(start[..i])
        invariant ReadCount(start, size) == i + DrainCount(queue, |data|, size)
        decreases |queue|
      {
        assert start[..i + 1] == start[..i] + [queue[0]];
        ConcatSnoc(start[..i], queue[0]);
        data := data + queue[0];
        queue := queue[1..];
        i := i + 1;
        assert start[i..] == start[i - 1..][1..];
      }
      ConcatSplit(start, i);
    }

    /** Seeking is not supported: the answer is always -1 and nothing changes. */
    method Seek(offset: int, whence: int) returns (r: int)
      ensures r == -1
    {
      r := -1;
    }
  }
}
