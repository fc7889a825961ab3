/** How the micro-controller finds message blocks in its receive buffer, and when it answers with a nak. */
module CommandFind {
  import opened CheckSum
  import opened Framing

  /** Looking for a sync byte; no valid block since the last nak for noise; four bits of the number awaited. */
  datatype Scan = Scan(needSync: bool, needValid: bool, next: int)

  /** `ret` is 1 for a block to dispatch, -1 for bytes to drop, 0 for more data needed; `valid` says that a
      whole block was found. */
  datatype Found = Found(ret: int, pop: nat, nak: bool, valid: bool, sync: Scan)

  function NeedMoreData(s: Scan): Found { Found(0, 0, false, false, s) }

  /** Drops bytes up to the next sync byte; only the first time since a valid block is this answered. */
  function Seek(s: Scan, buf: seq<Byte>): Found {
    var n := FindSync(buf);
    var t := s.(needSync := n == |buf|, needValid := true);
    Found(-1, if n < |buf| then n + 1 else |buf|, !s.needValid, false, t)
  }

  function Error(s: Scan, buf: seq<Byte>): Found
    requires buf != []
  {
    if buf[0] == SYNC then Found(-1, 1, false, false, s) else Seek(s, buf)
  }

  function Whole(s: Scan, len: nat, num: Byte): Found {
    var t := s.(needValid := false);
    if num != 16 + s.next then Found(-1, len, true, true, t)
    else Found(1, len, false, true, t.(next := (num + 1) % 16))
  }

  function FindBlock(s: Scan, buf: seq<Byte>): (f: Found)
    ensures f.pop <= |buf| && (f.ret == 0 <==> f.pop == 0)
  {
    if buf != [] && s.needSync then Seek(s, buf)
    else if |buf| < MESSAGE_MIN then NeedMoreData(s)
    else if !GoodHeader(buf[0], buf[1]) then Error(s, buf)
    else if |buf| < buf[0] then NeedMoreData(s)
    else if !GoodTrailer(buf[..buf[0]]) then Error(s, buf)
    else Whole(s, buf[0], buf[1])
  }

  /** The buffer begins with a frame that has the given number. */
  ghost predicate BeginsWith(buf: seq<Byte>, n: nat, num: int) {
    Begins(buf, n) && buf[..n][1] == 16 + num
  }

  /**
   What is found: a block to dispatch exactly when the buffer begins with a frame that has the
   number awaited; a frame with another number is dropped whole and answered; anything else
   that is dropped is noise where no frame can begin, answered only the first time.
   */
  lemma FoundMeans(s: Scan, buf: seq<Byte>)
    requires 0 <= s.next < 16
    ensures var f := FindBlock(s, buf);
            && (f.ret == 1 ==>
                  && !s.needSync && BeginsWith(buf, f.pop, s.next) && !f.nak && f.valid
                  && f.sync.next == (s.next + 1) % 16)
            && (forall n: nat :: !s.needSync && BeginsWith(buf, n, s.next) ==> f.ret == 1)
            && (f.ret != 1 ==> f.sync.next == s.next)
            && (f.ret == -1 && f.valid ==> Begins(buf, f.pop) && f.nak && !s.needSync)
            && (f.ret == -1 && !f.valid ==>
                  && Noise(buf, f.pop) && (f.nak ==> f.sync.needValid)
                  && (f.nak <==> !s.needValid && (s.needSync || buf[0] != SYNC))
                  && f.sync == if !s.needSync && buf[0] == SYNC then s
                               else s.(needSync := SYNC !in buf, needValid := true))
            && (f.valid ==> !f.sync.needSync && !f.sync.needValid)
            && (f.ret == -1 && !f.valid && !s.needSync ==> NeverBegins(buf))
            && (f.ret == 0 ==> f.sync == s && !f.nak && (|buf| < MESSAGE_MIN || |buf| < buf[0]))
  {
    hide GoodTrailer, FindSync, NeverBegins, Noise;
    if buf != [] { DiscardIsNoise(buf); SyncIsNoise(buf); }
    if |buf| >= MESSAGE_MIN {
      if !GoodHeader(buf[0], buf[1]) {
        BadHeaderNever(buf);
      } else if |buf| >= buf[0] && !GoodTrailer(buf[..buf[0]]) {
        BadTrailerNever(buf);
      }
    }
  }

  lemma SyncIsNoise(buf: seq<Byte>)
    ensures buf != [] && buf[0] == SYNC ==> Noise(buf, 1)
  {
  }

  /** A frame at the head of the buffer is dispatched if it has the number awaited, and answered with a nak if not. */
  lemma FrameHandled(s: Scan, nibble: int, payload: seq<Byte>, rest: seq<Byte>)
    requires !s.needSync && 0 <= nibble < 16 && 0 <= s.next < 16 && |payload| <= MESSAGE_MAX - MESSAGE_MIN
    ensures var f := FindBlock(s, Frame(nibble, payload) + rest);
            && f.valid && f.pop == |payload| + MESSAGE_MIN && !f.sync.needSync && !f.sync.needValid
            && (f.ret == 1 <==> nibble == s.next) && (f.nak <==> nibble != s.next)
            && f.sync.next == if nibble == s.next then (s.next + 1) % 16 else s.next
  {
    hide Crc;
    var frame := Frame(nibble, payload);
    FrameIsGood(nibble, payload);
    assert (frame + rest)[..|frame|] == frame;
    assert frame[1] == 16 + nibble;
  }

  /** The calls made over time: each sees whatever is in the buffer then. */
  function Calls(s: Scan, bufs: seq<seq<Byte>>): (r: seq<Found>)
    ensures |r| == |bufs|
    decreases |bufs|
  {
    if bufs == [] then []
    else
      var f := FindBlock(s, bufs[0]);
      [f] + Calls(f.sync, bufs[1..])
  }

  ghost predicate NoiseNak(f: Found) { f.nak && !f.valid }

  /** Without a valid block noise that was answered is not answered again. */
  lemma {:induction false} Silent(s: Scan, bufs: seq<seq<Byte>>, j: nat)
    requires s.needValid && j < |bufs| && NoiseNak(Calls(s, bufs)[j])
    ensures exists k :: 0 <= k < j && Calls(s, bufs)[k].valid
    decreases j
  {
    hide GoodHeader, GoodTrailer;
    var r, f := Calls(s, bufs), FindBlock(s, bufs[0]);
    assert r == [f] + Calls(f.sync, bufs[1..]);
    if j > 0 && !f.valid {
      Silent(f.sync, bufs[1..], j - 1);
      var k :| 0 <= k < j - 1 && Calls(f.sync, bufs[1..])[k].valid;
      assert r[k + 1].valid;
    } else if j > 0 {
      assert r[0].valid;
    }
  }

  /** Between two naks for noise there is a valid block. */
  lemma {:induction false} NoiseAnsweredOnce(s: Scan, bufs: seq<seq<Byte>>, i: nat, j: nat)
    requires i < j < |bufs| && NoiseNak(Calls(s, bufs)[i]) && NoiseNak(Calls(s, bufs)[j])
    ensures exists k :: i < k < j && Calls(s, bufs)[k].valid
    decreases i
  {
    hide GoodHeader, GoodTrailer;
    var r, f := Calls(s, bufs), FindBlock(s, bufs[0]);
    var rest := Calls(f.sync, bufs[1..]);
    assert r == [f] + rest;
    if i == 0 {
      Silent(f.sync, bufs[1..], j - 1);
      var k :| 0 <= k < j - 1 && rest[k].valid;
      assert r[k + 1].valid;
    } else {
      NoiseAnsweredOnce(f.sync, bufs[1..], i - 1, j - 1);
      var k :| i - 1 < k < j - 1 && rest[k].valid;
      assert r[k + 1].valid;
    }
  }
}

module CommandLink {
  import opened CheckSum
  import opened Framing
  import opened CommandFind

  class Receiver {
    var needSync: bool
    var needValid: bool
    var next: int

    ghost function Model(): Scan
      reads this
    {
      Scan(needSync, needValid, next)
    }

    ghost predicate Valid()
      reads this
    {
      0 <= next < 16
    }

    constructor ()
      ensures Valid() && Model() == Scan(false, false, 0)
    {
      needSync, needValid, next := false, false, 0;
    }

    /** Drops bytes up to the next sync byte. */
    method SeekSync(buf: seq<Byte>) returns (pop: nat, nak: bool)
      modifies this
      ensures var f := Seek(old(Model()), buf); pop == f.pop && nak == f.nak && Model() == f.sync
    {
      var n := FindSync(buf);
      needSync := n == |buf|;
      pop := if n < |buf| then n + 1 else |buf|;
      nak := !needValid;
      needValid := true;
    }

    method Search(buf: seq<Byte>) returns (ret: int, pop: nat, nak: bool)
      modifies this
      ensures var f := CommandFind.FindBlock(old(Model()), buf);
              ret == f.ret && pop == f.pop && nak == f.nak && Model() == f.sync
    {
      hide FindSync, CrcWord;
      if buf != [] && needSync {
        pop, nak := SeekSync(buf);
        return -1, pop, nak;
      }
      if |buf| < MESSAGE_MIN { return 0, 0, false; }
      var ok := false;
      if MESSAGE_MIN <= buf[0] <= MESSAGE_MAX && buf[1] / 16 == 1 {
        var n := buf[0];
        if |buf| < n { return 0, 0, false; }
        var block := buf[..n];
        if block[n-1] == SYNC {
          var crc := Crc16(block[..n-3]);
          ok := crc as int == (block[n-3] as int) * 256 + block[n-2];
        }
      }
      if !ok {
        if buf[0] == SYNC { return -1, 1, false; }
        pop, nak := SeekSync(buf);
        return -1, pop, nak;
      }
      needValid := false;
      if buf[1] != 16 + next { return -1, buf[0], true; }
      next := (buf[1] + 1) % 16;
      return 1, buf[0], false;
    }

    /**
     One is for a block to dispatch: exactly a frame with the number awaited, which moves on.
     Minus one is for bytes to drop: a frame with another number, which is answered with a nak,
     or noise where no frame can begin, answered only the first time since a whole frame.
     */
    method FindBlock(buf: seq<Byte>) returns (ret: int, pop: nat, nak: bool)
      requires Valid()
      modifies this
      ensures Valid() && ret in {-1, 0, 1} && pop <= |buf|
      ensures ret == 1 ==> !old(needSync) && BeginsWith(buf, pop, old(next)) && next == (old(next) + 1) % 16 && !nak
      ensures !old(needSync) && (exists n: nat :: BeginsWith(buf, n, old(next))) ==> ret == 1
      ensures ret != 1 ==> next == old(next)
      ensures ret == -1 && !old(needSync) && Begins(buf, pop) ==> nak && !needValid
      ensures ret == -1 && (old(needSync) || !Begins(buf, pop)) ==>
        && Noise(buf, pop) && (nak ==> needValid)
        && (nak <==> !old(needValid) && (old(needSync) || buf[0] != SYNC))
        && (if !old(needSync) && buf[0] == SYNC then Model() == old(Model())
            else needValid && (needSync <==> SYNC !in buf))
      ensures ret == 1 || (ret == -1 && !old(needSync) && Begins(buf, pop)) ==> !needSync && !needValid
      ensures ret == -1 && !old(needSync) && !Begins(buf, pop) ==> NeverBegins(buf)
      ensures ret == 0 ==> Model() == old(Model()) && !nak && pop == 0 && (|buf| < MESSAGE_MIN || |buf| < buf[0])
    {
      hide CommandFind.FindBlock, Noise, NeverBegins, IsFrame, GoodHeader;
      ghost var s := Model();
      FoundMeans(s, buf);
      FoundRange(s, buf);
      NoiseIsNoFrame(s, buf);
      ret, pop, nak := Search(buf);
    }
  }

  lemma FoundRange(s: Scan, buf: seq<Byte>)
    ensures var f := CommandFind.FindBlock(s, buf);
            f.ret in {-1, 0, 1} && (f.ret == -1 && f.valid ==> !f.sync.needValid)
  {
    hide GoodHeader, GoodTrailer, FindSync;
  }

  /** What is dropped as noise is not a frame. */
  lemma NoiseIsNoFrame(s: Scan, buf: seq<Byte>)
    ensures var f := CommandFind.FindBlock(s, buf);
            f.ret == -1 && !f.valid && !s.needSync ==> !Begins(buf, f.pop)
  {
    hide GoodHeader, GoodTrailer, FindSync;
    var f := CommandFind.FindBlock(s, buf);
    if f.ret == -1 && !f.valid && !s.needSync {
      if !GoodHeader(buf[0], buf[1]) { BadHeaderNever(buf); } else { BadTrailerNever(buf); }
      NeverIsNotNow(buf, f.pop);
    }
  }
}
