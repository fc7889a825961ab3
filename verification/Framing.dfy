/**
 Message blocks on a byte stream: how the host finds them, however the reads cut the stream.
 */
module Framing {
  import opened CheckSum

  const MESSAGE_MIN := 5
  const MESSAGE_MAX := 64
  const TRAILER := 3
  const SYNC: Byte := 0x7e

  // ----- one block -----

  datatype Verdict = NeedMore | Block(len: nat) | Skip(bytes: nat)

  /** Place of the first sync byte, or the length. */
  function FindSync(buf: seq<Byte>): (n: nat)
    ensures n <= |buf| && (n < |buf| ==> buf[n] == SYNC) && forall i :: 0 <= i < n ==> buf[i] != SYNC
  {
    if buf == [] || buf[0] == SYNC then 0 else 1 + FindSync(buf[1..])
  }

  predicate GoodHeader(len: Byte, num: Byte) {
    MESSAGE_MIN <= len <= MESSAGE_MAX && num / 16 == 1
  }

  predicate GoodTrailer(block: seq<Byte>)
    requires |block| >= MESSAGE_MIN
  {
    var n := |block|;
    block[n-1] == SYNC && (block[n-3] as int) * 256 + block[n-2] == Crc(block[..n-3])
  }

  function Discard(buf: seq<Byte>): Verdict {
    var n := FindSync(buf);
    if n < |buf| then Skip(n + 1) else Skip(|buf|)
  }

  /** What the bytes at the start of the buffer are. */
  function Check(needSync: bool, buf: seq<Byte>): (v: Verdict)
    ensures v.Block? ==> MESSAGE_MIN <= v.len <= MESSAGE_MAX && v.len <= |buf|
    ensures v.Skip? ==> 0 < v.bytes <= |buf|
  {
    if |buf| < MESSAGE_MIN then NeedMore
    else if needSync || !GoodHeader(buf[0], buf[1]) then Discard(buf)
    else if |buf| < buf[0] then NeedMore
    else if !GoodTrailer(buf[..buf[0]]) then Discard(buf)
    else Block(buf[0])
  }

  /** Whether a sync byte must be found first, after bytes were skipped. */
  predicate StillNeedsSync(buf: seq<Byte>) {
    FindSync(buf) == |buf|
  }

  datatype Reader = Reader(needSync: bool, buf: seq<Byte>)

  datatype Output = Output(blocks: seq<seq<Byte>>, reader: Reader)

  /** The blocks at the start of the buffer, and what is left. */
  function Drain(r: Reader): Output
    decreases |r.buf|
  {
    match Check(r.needSync, r.buf)
    case NeedMore => Output([], r)
    case Block(n) =>
      var rest := Drain(Reader(r.needSync, r.buf[n..]));
      rest.(blocks := [r.buf[..n]] + rest.blocks)
    case Skip(n) => Drain(Reader(StillNeedsSync(r.buf), r.buf[n..]))
  }

  function Feed(r: Reader, chunk: seq<Byte>): Output {
    Drain(Reader(r.needSync, r.buf + chunk))
  }

  /** All blocks from a list of reads. */
  function FeedAll(r: Reader, chunks: seq<seq<Byte>>): Output {
    if chunks == [] then Output([], r)
    else
      var before := FeedAll(r, chunks[..|chunks|-1]);
      var now := Feed(before.reader, chunks[|chunks|-1]);
      Output(before.blocks + now.blocks, now.reader)
  }

  function Stream(chunks: seq<seq<Byte>>): seq<Byte> {
    if chunks == [] then [] else Stream(chunks[..|chunks|-1]) + chunks[|chunks|-1]
  }

  // ----- the reads do not matter -----

  /** A reader that looks for a sync byte, reduced to what it amounts to. */
  function Normal(r: Reader): Reader {
    if !r.needSync then r
    else
      var n := FindSync(r.buf);
      if n < |r.buf| then Reader(false, r.buf[n + 1..]) else Reader(true, [])
  }

  ghost predicate SameOutput(a: Output, b: Output) {
    a.blocks == b.blocks && Normal(a.reader) == Normal(b.reader)
  }

  lemma {:induction false} FindSyncAppend(a: seq<Byte>, b: seq<Byte>)
    ensures FindSync(a + b) == if FindSync(a) < |a| then FindSync(a) else |a| + FindSync(b)
  {
    if a == [] {
      assert a + b == b;
    } else if a[0] != SYNC {
      assert (a + b)[1..] == a[1..] + b;
      FindSyncAppend(a[1..], b);
    }
  }

  /** More bytes do not change a verdict, except how many of them are skipped. */
  lemma CheckAppend(needSync: bool, a: seq<Byte>, b: seq<Byte>)
    requires !Check(needSync, a).NeedMore?
    ensures Check(needSync, a).Block? ==> Check(needSync, a + b) == Check(needSync, a)
    ensures Check(needSync, a).Skip? ==> Check(needSync, a + b) == Discard(a + b)
  {
    hide GoodHeader, GoodTrailer, FindSync;
    if a[0] <= |a| { assert (a + b)[..a[0]] == a[..a[0]]; }
  }

  /** Looking for a sync byte: bytes without one add nothing. */
  lemma SearchGoesOn(x: seq<Byte>, b: seq<Byte>)
    requires FindSync(x) == |x|
    ensures SameOutput(Drain(Reader(true, x + b)), Drain(Reader(true, b)))
  {
    hide Drain, Normal, FindSync;
    FindSyncAppend(x, b);
    var n := FindSync(b);
    if n < |b| {
      assert (x + b)[|x| + n + 1..] == b[n + 1..];
      SearchEnds(x + b, |x| + n);
      SearchEnds(b, n);
    } else {
      SearchFails(x + b);
      SearchFails(b);
    }
  }

  /** The search ends at the first sync byte, at the latest when there are enough bytes to look at. */
  lemma SearchEnds(buf: seq<Byte>, n: nat)
    requires FindSync(buf) == n < |buf|
    ensures SameOutput(Drain(Reader(true, buf)), Drain(Reader(false, buf[n + 1..])))
  {
    hide FindSync, GoodHeader, GoodTrailer, Drain;
    if |buf| < MESSAGE_MIN {
      DrainStops(Reader(true, buf));
      DrainStops(Reader(false, buf[n + 1..]));
    } else {
      DrainSkip(Reader(true, buf), n + 1);
    }
  }

  lemma SearchFails(buf: seq<Byte>)
    requires FindSync(buf) == |buf|
    ensures SameOutput(Drain(Reader(true, buf)), Output([], Reader(true, [])))
  {
    if |buf| >= MESSAGE_MIN {
      assert Check(true, buf) == Skip(|buf|);
      assert buf[|buf|..] == [];
    }
  }

  /** Readers that amount to the same give the same for the bytes that follow. */
  lemma NormalFeeds(r: Reader, b: seq<Byte>)
    ensures SameOutput(Feed(r, b), Feed(Normal(r), b))
  {
    hide Drain, FindSync;
    if r.needSync {
      var n := FindSync(r.buf);
      if n < |r.buf| {
        FindSyncAppend(r.buf, b);
        SearchEnds(r.buf + b, n);
        assert (r.buf + b)[n + 1..] == r.buf[n + 1..] + b;
      } else {
        SearchGoesOn(r.buf, b);
        assert [] + b == b;
      }
    }
  }

  lemma DrainBlock(r: Reader, n: nat)
    requires Check(r.needSync, r.buf) == Block(n)
    ensures n <= |r.buf|
    ensures var rest := Drain(Reader(r.needSync, r.buf[n..]));
            Drain(r) == Output([r.buf[..n]] + rest.blocks, rest.reader)
  {
  }

  lemma DrainSkip(r: Reader, n: nat)
    requires Check(r.needSync, r.buf) == Skip(n)
    ensures n <= |r.buf| && Drain(r) == Drain(Reader(StillNeedsSync(r.buf), r.buf[n..]))
  {
  }

  /** What is found in part of the bytes, then in the rest. */
  function InTwo(r: Reader, b: seq<Byte>): Output {
    var part := Drain(r);
    var more := Feed(part.reader, b);
    Output(part.blocks + more.blocks, more.reader)
  }

  lemma BlockSplits(r: Reader, b: seq<Byte>, n: nat)
    requires Check(r.needSync, r.buf) == Block(n)
    requires SameOutput(Feed(Reader(r.needSync, r.buf[n..]), b), InTwo(Reader(r.needSync, r.buf[n..]), b))
    ensures SameOutput(Feed(r, b), InTwo(r, b))
  {
    hide Drain, Check, Normal;
    CheckAppend(r.needSync, r.buf, b);
    DrainBlock(r, n);
    DrainBlock(Reader(r.needSync, r.buf + b), n);
    assert (r.buf + b)[n..] == r.buf[n..] + b && (r.buf + b)[..n] == r.buf[..n];
    var rest := Reader(r.needSync, r.buf[n..]);
    assert [r.buf[..n]] + (Drain(rest).blocks + Feed(Drain(rest).reader, b).blocks)
        == [r.buf[..n]] + Drain(rest).blocks + Feed(Drain(rest).reader, b).blocks;
  }

  lemma SkipSplits(r: Reader, b: seq<Byte>, n: nat)
    requires Check(r.needSync, r.buf) == Skip(n)
    requires FindSync(r.buf) < |r.buf| ==>
      SameOutput(Feed(Reader(false, r.buf[n..]), b), InTwo(Reader(false, r.buf[n..]), b))
    ensures SameOutput(Feed(r, b), InTwo(r, b))
  {
    hide Drain, Normal, FindSync, GoodHeader, GoodTrailer;
    CheckAppend(r.needSync, r.buf, b);
    FindSyncAppend(r.buf, b);
    DrainSkip(r, n);
    var all := Reader(r.needSync, r.buf + b);
    if FindSync(r.buf) < |r.buf| {
      DrainSkip(all, n);
      assert (r.buf + b)[n..] == r.buf[n..] + b;
    } else {
      DrainNothing();
      assert r.buf[n..] == [] && [] + b == b;
      SkipToMore(r, b);
    }
  }

  lemma DrainNothing()
    ensures Drain(Reader(true, [])) == Output([], Reader(true, []))
  {
  }

  /** Everything is skipped and the search goes on in the bytes that follow. */
  lemma SkipToMore(r: Reader, b: seq<Byte>)
    requires FindSync(r.buf) == |r.buf| && Check(r.needSync, r.buf + b) == Discard(r.buf + b)
    ensures SameOutput(Feed(r, b), Drain(Reader(true, b)))
  {
    hide Drain, Normal, FindSync, Check;
    FindSyncAppend(r.buf, b);
    var all, k := Reader(r.needSync, r.buf + b), FindSync(b);
    if k < |b| {
      DrainSkip(all, |r.buf| + k + 1);
      assert (r.buf + b)[|r.buf| + k + 1..] == b[k + 1..];
      SearchEnds(b, k);
    } else {
      DrainSkip(all, |r.buf + b|);
      assert (r.buf + b)[|r.buf + b|..] == [];
      DrainNothing();
      SearchFails(b);
    }
  }

  /** Draining part of the bytes first gives the same as draining them all. */
  lemma {:induction false} DrainSplits(r: Reader, b: seq<Byte>)
    ensures SameOutput(Feed(r, b), InTwo(r, b))
    decreases |r.buf|
  {
    hide Drain, Normal, FindSync, GoodHeader, GoodTrailer;
    match Check(r.needSync, r.buf)
    case NeedMore =>
      DrainStops(r);
      assert [] + Feed(r, b).blocks == Feed(r, b).blocks;
    case Block(n) =>
      DrainSplits(Reader(r.needSync, r.buf[n..]), b);
      BlockSplits(r, b, n);
    case Skip(n) =>
      DrainSplits(Reader(false, r.buf[n..]), b);
      SkipSplits(r, b, n);
  }

  lemma DrainStops(r: Reader)
    requires Check(r.needSync, r.buf) == NeedMore
    ensures Drain(r) == Output([], r)
  {
  }

  /**
   The blocks found do not depend on how the reads cut the stream, and what is left in the
   buffer amounts to the same.
   */
  lemma {:induction false} CutsDoNotMatter(chunks: seq<seq<Byte>>)
    ensures SameOutput(FeedAll(Reader(false, []), chunks), Drain(Reader(false, Stream(chunks))))
  {
    hide Drain, Normal, Check;
    var start := Reader(false, []);
    if chunks == [] {
      DrainStart();
    } else {
      var n := |chunks| - 1;
      CutsDoNotMatter(chunks[..n]);
      var before, whole := FeedAll(start, chunks[..n]), Drain(Reader(false, Stream(chunks[..n])));
      DrainSplits(Reader(false, Stream(chunks[..n])), chunks[n]);
      NormalFeeds(before.reader, chunks[n]);
      NormalFeeds(whole.reader, chunks[n]);
    }
  }

  lemma DrainStart()
    ensures Drain(Reader(false, [])) == Output([], Reader(false, []))
  {
  }

  /** Fewer than 64 bytes are left after every read, and they hold no complete block. */
  lemma {:induction false} LittleIsLeft(r: Reader)
    ensures |Drain(r).reader.buf| < MESSAGE_MAX && Check(Drain(r).reader.needSync, Drain(r).reader.buf) == NeedMore
    decreases |r.buf|
  {
    hide FindSync, GoodTrailer;
    match Check(r.needSync, r.buf)
    case NeedMore =>
    case Block(n) => LittleIsLeft(Reader(r.needSync, r.buf[n..]));
    case Skip(n) => LittleIsLeft(Reader(StillNeedsSync(r.buf), r.buf[n..]));
  }

  // ----- round trip -----

  /** A block with the given four bits of its number. */
  function Frame(nibble: int, payload: seq<Byte>): (f: seq<Byte>)
    requires 0 <= nibble < 16 && |payload| <= MESSAGE_MAX - MESSAGE_MIN
    ensures |f| == |payload| + MESSAGE_MIN
  {
    var body: seq<Byte> := [|payload| + MESSAGE_MIN, 16 + nibble] + payload;
    body + [Crc(body) / 256, Crc(body) % 256, SYNC]
  }

  /** The layout of a block: its length, its number in the low half of a byte with 1 in the high half, what it
      carries, the check sum with its high byte first, and the byte 0x7e. */
  lemma FrameLayout(nibble: int, payload: seq<Byte>)
    requires 0 <= nibble < 16 && |payload| <= 59
    ensures var f := Frame(nibble, payload); var n := |payload| + 5;
            && |f| == n && f[0] == n && f[1] == 0x10 + nibble && f[2..n - 3] == payload && f[n - 1] == 0x7e
            && (f[n - 3] as int) * 256 + f[n - 2] == Crc(f[..n - 3])
  {
    hide Crc;
    var f := Frame(nibble, payload);
    var body: seq<Byte> := [|payload| + MESSAGE_MIN, 16 + nibble] + payload;
    assert f[..|f| - 3] == body;
  }

  ghost predicate IsFrame(f: seq<Byte>) {
    |f| >= MESSAGE_MIN && GoodHeader(f[0], f[1]) && |f| == f[0] && GoodTrailer(f)
  }

  /** The buffer begins with a frame of n bytes. */
  ghost predicate Begins(buf: seq<Byte>, n: nat) {
    n <= |buf| && IsFrame(buf[..n])
  }

  /** Whatever bytes follow, the buffer will not begin with a frame. */
  ghost predicate NeverBegins(buf: seq<Byte>) {
    forall more: seq<Byte>, n: nat :: !Begins(buf + more, n)
  }

  /** The first n bytes are noise up to and with the first sync byte, or all there is. */
  ghost predicate Noise(buf: seq<Byte>, n: nat) {
    && 0 < n <= |buf| && SYNC !in buf[..n-1]
    && if SYNC in buf then buf[n-1] == SYNC else n == |buf|
  }

  lemma DiscardIsNoise(buf: seq<Byte>)
    requires buf != []
    ensures Noise(buf, Discard(buf).bytes) && (StillNeedsSync(buf) <==> SYNC !in buf)
  {
    var n := FindSync(buf);
    if n < |buf| { assert buf[n] in buf; }
  }

  lemma BeginsHead(buf: seq<Byte>, more: seq<Byte>, n: nat)
    requires |buf| >= 2 && Begins(buf + more, n)
    ensures n == buf[0] && GoodHeader(buf[0], buf[1]) && (n <= |buf| ==> GoodTrailer(buf[..n]))
  {
    hide GoodTrailer;
    if n <= |buf| { assert (buf + more)[..n] == buf[..n]; }
  }

  lemma BadHeaderNever(buf: seq<Byte>)
    requires |buf| >= 2 && !GoodHeader(buf[0], buf[1])
    ensures NeverBegins(buf)
  {
    hide Begins, GoodHeader;
    forall more: seq<Byte>, n: nat ensures !Begins(buf + more, n) {
      if Begins(buf + more, n) { BeginsHead(buf, more, n); }
    }
  }

  lemma BadTrailerNever(buf: seq<Byte>)
    requires |buf| >= 2 && GoodHeader(buf[0], buf[1]) && |buf| >= buf[0] && !GoodTrailer(buf[..buf[0]])
    ensures NeverBegins(buf)
  {
    hide Begins, GoodTrailer;
    forall more: seq<Byte>, n: nat ensures !Begins(buf + more, n) {
      if Begins(buf + more, n) { BeginsHead(buf, more, n); }
    }
  }

  lemma NeverIsNotNow(buf: seq<Byte>, n: nat)
    requires NeverBegins(buf)
    ensures !Begins(buf, n)
  {
    assert buf + [] == buf;
  }

  /**
   What the verdicts mean: a block exactly when the buffer begins with a frame; skipped bytes
   are noise up to the next sync byte, and no frame can begin there however the bytes go on;
   more data is asked for only when a frame may still be incomplete.
   */
  lemma CheckMeans(needSync: bool, buf: seq<Byte>)
    ensures var v := Check(needSync, buf);
            && (v.Block? ==> !needSync && Begins(buf, v.len))
            && (forall n: nat :: !needSync && Begins(buf, n) ==> v == Block(n))
            && (v.Skip? ==> Noise(buf, v.bytes) && (StillNeedsSync(buf) <==> SYNC !in buf))
            && (v.Skip? && !needSync ==> NeverBegins(buf))
            && (v.NeedMore? ==> |buf| < MESSAGE_MIN || (GoodHeader(buf[0], buf[1]) && |buf| < buf[0]))
  {
    hide GoodTrailer, FindSync, Noise, NeverBegins, StillNeedsSync;
    if buf != [] { DiscardIsNoise(buf); }
    if |buf| >= MESSAGE_MIN {
      if !GoodHeader(buf[0], buf[1]) {
        BadHeaderNever(buf);
      } else if |buf| >= buf[0] && !GoodTrailer(buf[..buf[0]]) {
        BadTrailerNever(buf);
      }
    }
    forall n: nat | !needSync && Begins(buf, n) ensures Check(needSync, buf) == Block(n) {
      FrameFirst(buf[..n], buf[n..]);
      assert buf[..n] + buf[n..] == buf;
    }
  }

  lemma FrameIsGood(nibble: int, payload: seq<Byte>)
    requires 0 <= nibble < 16 && |payload| <= MESSAGE_MAX - MESSAGE_MIN
    ensures IsFrame(Frame(nibble, payload)) && Frame(nibble, payload)[2..|payload| + 2] == payload
  {
    hide Crc;
    var f := Frame(nibble, payload);
    var body: seq<Byte> := [|payload| + MESSAGE_MIN, 16 + nibble] + payload;
    assert f[..|f|-3] == body;
  }

  ghost predicate AllFrames(fs: seq<seq<Byte>>) {
    forall i :: 0 <= i < |fs| ==> IsFrame(fs[i])
  }

  function Joined(fs: seq<seq<Byte>>): seq<Byte> {
    if fs == [] then [] else fs[0] + Joined(fs[1..])
  }

  lemma FrameFirst(f: seq<Byte>, rest: seq<Byte>)
    requires IsFrame(f)
    ensures Check(false, f + rest) == Block(|f|)
  {
    hide Crc, GoodTrailer;
    assert (f + rest)[..|f|] == f;
  }

  /** Frames one after the other are found again, all of them and nothing else. */
  lemma {:induction false} FramesFound(fs: seq<seq<Byte>>)
    requires AllFrames(fs)
    ensures Drain(Reader(false, Joined(fs))) == Output(fs, Reader(false, []))
  {
    hide Drain, Check, IsFrame;
    if fs == [] {
      DrainStart();
    } else {
      FrameFirst(fs[0], Joined(fs[1..]));
      DrainBlock(Reader(false, Joined(fs)), |fs[0]|);
      assert Joined(fs)[|fs[0]|..] == Joined(fs[1..]) && Joined(fs)[..|fs[0]|] == fs[0];
      FramesFound(fs[1..]);
      assert [fs[0]] + fs[1..] == fs;
    }
  }

  /** Whatever the reads, a stream of frames gives exactly these frames. */
  lemma FramesFoundInChunks(fs: seq<seq<Byte>>, chunks: seq<seq<Byte>>)
    requires AllFrames(fs) && Stream(chunks) == Joined(fs)
    ensures FeedAll(Reader(false, []), chunks).blocks == fs
  {
    hide Drain, Check, IsFrame;
    CutsDoNotMatter(chunks);
    FramesFound(fs);
  }

  /** After noise, a sync byte is enough to find all frames that follow it. */
  lemma Resynchronises(noise: seq<Byte>, fs: seq<seq<Byte>>)
    requires AllFrames(fs) && FindSync(noise) == |noise|
    ensures Drain(Reader(true, noise + [SYNC] + Joined(fs))).blocks == fs
  {
    hide Drain, Check, IsFrame;
    var buf := noise + [SYNC] + Joined(fs);
    FindSyncAppend(noise, [SYNC] + Joined(fs));
    assert buf == noise + ([SYNC] + Joined(fs));
    assert FindSync([SYNC] + Joined(fs)) == 0;
    SearchEnds(buf, |noise|);
    assert buf[|noise| + 1..] == Joined(fs);
    FramesFound(fs);
  }
}
