/** Docker's multiplexed log stream (Docker Engine API, ContainerAttach, "Stream
    format"): frames of an eight-byte header - stream, three zeros, a big-endian
    32-bit size - and that many payload bytes. */
module DockerLogs {
  import opened Common

  datatype Frame = Frame(stream: byte, payload: seq<byte>)

  const HEADER: nat := 8
  const SIZE_LIMIT: nat := 0x1_0000_0000

  function BigEndian(b: seq<byte>): (n: nat)
    requires |b| == 4
    ensures n < SIZE_LIMIT
  {
    b[0] as int * 0x1000000 + b[1] as int * 0x10000 + b[2] as int * 0x100 + b[3] as int
  }

  function ToBigEndian(n: nat): (b: seq<byte>)
    requires n < SIZE_LIMIT
    ensures |b| == 4 && BigEndian(b) == n
  {
    var high := n / 0x100;
    var higher := high / 0x100;
    [(higher / 0x100) as byte, (higher % 0x100) as byte, (high % 0x100) as byte, (n % 0x100) as byte]
  }

  function Encode(f: Frame): seq<byte>
    requires |f.payload| < SIZE_LIMIT
  {
    [f.stream, 0, 0, 0] + ToBigEndian(|f.payload|) + f.payload
  }

  function Min(a: nat, b: nat): nat {
    if a <= b then a else b
  }

  /** What the reader makes of a byte stream: a header that cannot be read ends
      it, and so does a payload cut short, of which the part present is kept. */
  function Demux(s: seq<byte>): seq<byte>
    decreases |s|
  {
    if |s| < HEADER then []
    else
      var size := BigEndian(s[4..HEADER]);
      var rest := s[HEADER..];
      rest[..Min(size, |rest|)] + if size <= |rest| then Demux(rest[size..]) else []
  }

  /** One turn of the read loop. */
  lemma {:induction false} DemuxTurn(s: seq<byte>)
    requires |s| >= HEADER
    ensures var size, rest := BigEndian(s[4..HEADER]), s[HEADER..];
            Demux(s) == if size <= |rest| then rest[..size] + Demux(rest[size..]) else rest
  {
    var size, rest := BigEndian(s[4..HEADER]), s[HEADER..];
    if size > |rest| {
      assert rest[..|rest|] + [] == rest;
    }
  }

  /** `demuxDockerLogStream`: io.ReadFull of the header, io.CopyN of the payload. */
  method DemuxStream(s: seq<byte>) returns (out: seq<byte>)
    ensures out == Demux(s)
  {
    out := [];
    var r := s;
    while |r| >= HEADER
      invariant out + Demux(r) == Demux(s)
      decreases |r|
    {
      ghost var before, was := r, out;
      DemuxTurn(before);
      var size := BigEndian(r[4..HEADER]);
      r := r[HEADER..];
      if size == 0 {
        assert r[0..] == r && Demux(before) == [] + Demux(r) == Demux(r);
        continue;
      }
      var copied := Min(size, |r|);
      out := out + r[..copied];
      if copied < size {
        assert r[..copied] == r && Demux(before) == r;
        return;
      }
      assert was + (r[..size] + Demux(r[size..])) == (was + r[..size]) + Demux(r[size..]);
      r := r[size..];
    }
  }

  predicate Framable(frames: seq<Frame>) {
    forall f | f in frames :: |f.payload| < SIZE_LIMIT
  }

  function EncodeAll(frames: seq<Frame>): seq<byte>
    requires Framable(frames)
  {
    if frames == [] then [] else Encode(frames[0]) + EncodeAll(frames[1..])
  }

  function Payloads(frames: seq<Frame>): seq<byte> {
    if frames == [] then [] else frames[0].payload + Payloads(frames[1..])
  }

  lemma FrameParts(f: Frame, more: seq<byte>)
    requires |f.payload| < SIZE_LIMIT
    ensures var s := Encode(f) + more;
            |s| >= HEADER && BigEndian(s[4..HEADER]) == |f.payload| && s[HEADER..] == f.payload + more
  {
    var size := ToBigEndian(|f.payload|);
    var s := Encode(f) + more;
    assert s == [f.stream, 0, 0, 0] + (size + (f.payload + more));
    assert s[4..HEADER] == size;
  }

  lemma {:induction false} DemuxFrame(f: Frame, more: seq<byte>)
    requires |f.payload| < SIZE_LIMIT
    ensures Demux(Encode(f) + more) == f.payload + Demux(more)
  {
    FrameParts(f, more);
    DemuxTurn(Encode(f) + more);
    assert (f.payload + more)[..|f.payload|] == f.payload;
    assert (f.payload + more)[|f.payload|..] == more;
  }

  lemma Regroup(a: seq<byte>, b: seq<byte>, c: seq<byte>)
    ensures a + (b + c) == (a + b) + c
  {
  }

  /** The first frame comes out first. */
  lemma {:induction false} FirstFrame(frames: seq<Frame>, more: seq<byte>)
    requires Framable(frames) && frames != []
    ensures Demux(EncodeAll(frames) + more) == frames[0].payload + Demux(EncodeAll(frames[1..]) + more)
  {
    var tail := EncodeAll(frames[1..]);
    assert EncodeAll(frames) + more == Encode(frames[0]) + (tail + more);
    DemuxFrame(frames[0], tail + more);
  }

  lemma {:induction false} DemuxFramesThen(frames: seq<Frame>, more: seq<byte>)
    requires Framable(frames)
    ensures Demux(EncodeAll(frames) + more) == Payloads(frames) + Demux(more)
    decreases |frames|
  {
    if frames == [] {
      assert EncodeAll(frames) + more == more;
      assert Payloads(frames) + Demux(more) == Demux(more);
    } else {
      FirstFrame(frames, more);
      DemuxFramesThen(frames[1..], more);
      var p, ps, rest := frames[0].payload, Payloads(frames[1..]), Demux(more);
      assert Payloads(frames) == p + ps;
      Regroup(p, ps, rest);
    }
  }

  /** Demultiplexing undoes framing, for any frames a 32-bit size can describe. */
  lemma {:induction false} DemuxUndoesFraming(frames: seq<Frame>)
    requires Framable(frames)
    ensures Demux(EncodeAll(frames)) == Payloads(frames)
  {
    DemuxFramesThen(frames, []);
    assert EncodeAll(frames) + [] == EncodeAll(frames);
    assert Payloads(frames) + [] == Payloads(frames);
  }

  /** Cutting the response short only cuts the text short. */
  lemma {:induction false} DemuxOfPrefix(a: seq<byte>, b: seq<byte>)
    requires a <= b
    ensures Demux(a) <= Demux(b)
    decreases |a|
  {
    if |a| < HEADER {
    } else {
      assert a[4..HEADER] == b[4..HEADER];
      DemuxTurn(a);
      DemuxTurn(b);
      var size := BigEndian(a[4..HEADER]);
      var restA, restB := a[HEADER..], b[HEADER..];
      assert restA <= restB;
      if size <= |restA| {
        assert restA[..size] == restB[..size];
        DemuxOfPrefix(restA[size..], restB[size..]);
      } else if size <= |restB| {
        assert restA <= restB[..size];
      }
    }
  }

  /** The text never outgrows the stream: eight bytes fewer per complete frame. */
  lemma {:induction false} DemuxNeverGrows(s: seq<byte>)
    ensures |Demux(s)| <= if |s| < HEADER then 0 else |s| - HEADER
    decreases |s|
  {
    if |s| < HEADER {
    } else {
      var size := BigEndian(s[4..HEADER]);
      var rest := s[HEADER..];
      if size <= |rest| {
        DemuxNeverGrows(rest[size..]);
      }
    }
  }
}
