/** The replay cache (`cachedReader`): bytes peeked at for sniffing are kept and handed,
    unconsumed, to the first real read afterwards. */
module Replay {

  import opened Wrappers
  import opened Net

  /** Capacity of one pooled buffer (`buf.Size`). */
  const BufSize: nat := 8192

  /** A `buf.MultiBuffer`: a sequence of buffers. */
  type MultiBuffer = seq<seq<byte>>

  /** The bytes of a multi-buffer, in order. */
  function Flatten(mb: MultiBuffer): seq<byte>
  {
    if |mb| == 0 then [] else mb[0] + Flatten(mb[1..])
  }

  /** `MultiBuffer.IsEmpty`: no buffer holds a byte (an absent cache is the empty sequence). */
  predicate IsEmpty(mb: MultiBuffer)
  {
    forall i :: 0 <= i < |mb| ==> |mb[i]| == 0
  }

  lemma {:induction false} FlattenAppend(a: MultiBuffer, b: MultiBuffer)
    ensures Flatten(a + b) == Flatten(a) + Flatten(b)
  {
    if |a| == 0 {
      assert a + b == b;
    } else {
      assert (a + b)[1..] == a[1..] + b;
      FlattenAppend(a[1..], b);
    }
  }

  lemma {:induction false} EmptyMeansNoBytes(mb: MultiBuffer)
    ensures IsEmpty(mb) <==> |Flatten(mb)| == 0
  {
    if |mb| > 0 {
      EmptyMeansNoBytes(mb[1..]);
      assert IsEmpty(mb) <==> |mb[0]| == 0 && IsEmpty(mb[1..]) by {
        if |mb[0]| == 0 && IsEmpty(mb[1..]) {
          forall i | 0 <= i < |mb| ensures |mb[i]| == 0 {
            if i > 0 { assert mb[i] == mb[1..][i - 1]; }
          }
        }
      }
    }
  }

  function Min(a: nat, b: nat): nat
  {
    if a <= b then a else b
  }

  /** `MultiBuffer.Copy`: fills `room` bytes buffer by buffer, stopping at the first buffer
      that does not fit entirely. The result is the longest prefix of the bytes that fits. */
  function CopyInto(mb: MultiBuffer, room: nat): (out: seq<byte>)
    ensures out == Flatten(mb)[..Min(|Flatten(mb)|, room)]
  {
    if |mb| == 0 then []
    else if |mb[0]| <= room then
      var rest := CopyInto(mb[1..], room - |mb[0]|);
      assert Flatten(mb) == mb[0] + Flatten(mb[1..]);
      mb[0] + rest
    else
      assert Flatten(mb)[..room] == mb[0][..room];
      mb[0][..room]
  }

  datatype ReadError = ReadTimeout | EndOfStream | PipeClosed

  /** What one read of the underlying reader returned: buffers and possibly an error. */
  datatype ReadOutcome = ReadOutcome(data: MultiBuffer, err: Option<ReadError>)

  /** The underlying pipe reader, described by the script of what its successive reads return.
      A read past the end of the script reports the end of the stream; a read after an
      interrupt reports a closed pipe. */
  datatype Source = Source(script: seq<ReadOutcome>, interrupted: bool)

  /** One read of the underlying reader (timed or not): its outcome and the reader after it. */
  function Pull(s: Source): (ReadOutcome, Source)
  {
    if s.interrupted then (ReadOutcome([], Some(PipeClosed)), s)
    else if |s.script| == 0 then (ReadOutcome([], Some(EndOfStream)), s)
    else (s.script[0], s.(script := s.script[1..]))
  }

  /** The source after `n` reads. */
  function Skip(s: Source, n: nat): Source
    decreases n
  {
    if n == 0 then s else Skip(Pull(s).1, n - 1)
  }

  /** The bytes delivered by the next `n` reads of the source, in order. */
  function Arrived(s: Source, n: nat): seq<byte>
    decreases n
  {
    if n == 0 then [] else Flatten(Pull(s).0.data) + Arrived(Pull(s).1, n - 1)
  }

  datatype CachedReader = CachedReader(source: Source, cache: MultiBuffer)

  /** A fresh replay reader over `s`, with nothing cached. */
  function Wrap(s: Source): CachedReader
  {
    CachedReader(s, [])
  }

  /** The reader after a `Cache` call, and the bytes left in the caller's buffer. */
  datatype Peek = Peek(reader: CachedReader, payload: seq<byte>)

  /** `cachedReader.Cache`: one read of the source is appended to the cache (a read error is
      ignored), then as much of the cache as fits one buffer is copied out without being
      removed. */
  function Cache(r: CachedReader): (p: Peek)
    ensures Flatten(p.reader.cache) == Flatten(r.cache) + Flatten(Pull(r.source).0.data)
    ensures p.reader.source == Pull(r.source).1
    ensures p.payload == Flatten(p.reader.cache)[..Min(|Flatten(p.reader.cache)|, BufSize)]
    ensures |p.payload| <= BufSize
  {
    var (got, rest) := Pull(r.source);
    var cache := if IsEmpty(got.data) then r.cache else r.cache + got.data;
    EmptyMeansNoBytes(got.data);
    FlattenAppend(r.cache, got.data);
    Peek(CachedReader(rest, cache), CopyInto(cache, BufSize))
  }

  /** `cachedReader.readInternal`: takes the whole cache when it holds bytes, leaving it empty. */
  function ReadInternal(r: CachedReader): (Option<MultiBuffer>, CachedReader)
  {
    if !IsEmpty(r.cache) then (Some(r.cache), r.(cache := [])) else (None, r)
  }

  /** `cachedReader.ReadMultiBuffer` (and `ReadMultiBufferTimeout`, which differs only in the
      underlying call): the cache first, then the underlying source. */
  function ReadMultiBuffer(r: CachedReader): (ReadOutcome, CachedReader)
  {
    match ReadInternal(r)
    case (Some(mb), r') => (ReadOutcome(mb, None), r')
    case (None, r') =>
      var (o, s) := Pull(r'.source);
      (o, r'.(source := s))
  }

  /** `cachedReader.Interrupt`: drops the cache and interrupts the source. */
  function Interrupt(r: CachedReader): (r': CachedReader)
    ensures IsEmpty(r'.cache)
    ensures r'.source.interrupted
    ensures r'.source.script == r.source.script
  {
    CachedReader(r.source.(interrupted := true), [])
  }

  /** `n` successive `Cache` calls. */
  function CacheRepeated(r: CachedReader, n: nat): CachedReader
    decreases n
  {
    if n == 0 then r else CacheRepeated(Cache(r).reader, n - 1)
  }

  /** A read hands back the whole cache exactly once: it returns every cached buffer with no
      error, touches the source not at all, and the read after it goes to the source. */
  lemma ReplayExactlyOnce(r: CachedReader)
    requires !IsEmpty(r.cache)
    ensures ReadMultiBuffer(r).0 == ReadOutcome(r.cache, None)
    ensures ReadMultiBuffer(r).1 == r.(cache := [])
    ensures ReadMultiBuffer(ReadMultiBuffer(r).1).0 == Pull(r.source).0
    ensures ReadMultiBuffer(ReadMultiBuffer(r).1).1 == CachedReader(Pull(r.source).1, [])
  {
  }

  /** Caching never removes bytes: after `n` calls the cache holds what it held before followed
      by everything the source delivered, and the source has been read `n` times. */
  lemma {:induction false} CacheAccumulates(r: CachedReader, n: nat)
    ensures Flatten(CacheRepeated(r, n).cache) == Flatten(r.cache) + Arrived(r.source, n)
    ensures CacheRepeated(r, n).source == Skip(r.source, n)
    decreases n
  {
    if n > 0 {
      var p := Cache(r);
      CacheAccumulates(p.reader, n - 1);
    }
  }

  /** After `n` `Cache` calls on a fresh replay reader, the first read yields exactly the bytes
      the source delivered, none dropped and none repeated, and the read after that goes to
      the source where the sniffing reads left it. When nothing arrived, the first read
      already goes to the source. */
  lemma PeekedBytesReplayed(s: Source, n: nat)
    ensures var (o, r) := ReadMultiBuffer(CacheRepeated(Wrap(s), n));
      if |Arrived(s, n)| > 0 then
        Flatten(o.data) == Arrived(s, n) && o.err == None && r == CachedReader(Skip(s, n), [])
      else
        (o, r.source) == Pull(Skip(s, n))
  {
    var c := CacheRepeated(Wrap(s), n);
    CacheAccumulates(Wrap(s), n);
    EmptyMeansNoBytes(c.cache);
  }

  /** After an interrupt nothing cached is replayed: the next read goes to the source. */
  lemma InterruptDropsCache(r: CachedReader)
    ensures ReadMultiBuffer(Interrupt(r)).0 == ReadOutcome([], Some(PipeClosed))
    ensures ReadMultiBuffer(Interrupt(r)).1.cache == []
  {
  }
}
