/** The input buffer of the host: bytes come in from reads, message blocks come out. */
module Input {
  import opened CheckSum
  import opened Framing

  class InputBuffer {
    var needSync: bool
    var buf: seq<Byte>

    ghost function Model(): Reader
      reads this
    {
      Reader(needSync, buf)
    }

    constructor ()
      ensures Model() == Reader(false, [])
    {
      needSync, buf := false, [];
    }

    /** Whether a block ends with its check sum and a sync byte. */
    method TrailerIsGood(block: seq<Byte>) returns (ok: bool)
      requires |block| >= MESSAGE_MIN
      ensures ok == GoodTrailer(block)
    {
      var n := |block|;
      if block[n-1] != SYNC { return false; }
      var crc := Crc16(block[..n-3]);
      return crc as int == (block[n-3] as int) * 256 + block[n-2];
    }

    method Verdict() returns (len: int)
      modifies this`needSync
      ensures match Check(old(needSync), buf)
              case NeedMore => len == 0 && needSync == old(needSync)
              case Block(n) => len == n && needSync == old(needSync)
              case Skip(n) => len == 0 - n && needSync == StillNeedsSync(buf)
    {
      hide FindSync, GoodTrailer;
      if |buf| < MESSAGE_MIN { return 0; }
      if !needSync && MESSAGE_MIN <= buf[0] <= MESSAGE_MAX && buf[1] / 16 == 1 {
        var n := buf[0];
        if |buf| < n { return 0; }
        var ok := TrailerIsGood(buf[..n]);
        if ok { return n; }
      }
      var nextSync := FindSync(buf);
      if nextSync < |buf| {
        needSync := false;
        return -(nextSync + 1);
      }
      needSync := true;
      return -|buf|;
    }

    /**
     The length of the frame that the buffer begins with; minus the number of bytes to skip,
     which are noise up to the next sync byte, where no frame can begin however the bytes go
     on; or zero while a frame may be incomplete.
     */
    method MsgblockCheck() returns (len: int)
      modifies this`needSync
      ensures len > 0 ==> Begins(buf, len) && !old(needSync)
      ensures !old(needSync) && (exists n: nat :: Begins(buf, n)) ==> len > 0
      ensures len < 0 ==> Noise(buf, 0 - len) && (needSync <==> SYNC !in buf)
      ensures len < 0 && !old(needSync) ==> NeverBegins(buf)
      ensures len == 0 ==> |buf| < MESSAGE_MIN || (GoodHeader(buf[0], buf[1]) && |buf| < buf[0])
      ensures len >= 0 ==> needSync == old(needSync)
      ensures match Check(old(needSync), buf)
              case NeedMore => len == 0
              case Block(n) => len == n
              case Skip(n) => len == 0 - n && needSync == StillNeedsSync(buf)
    {
      hide FindSync, Check, StillNeedsSync, Begins, Noise, NeverBegins, GoodHeader;
      CheckMeans(needSync, buf);
      len := Verdict();
    }

    /** Handles the bytes of one read: takes out all complete blocks. */
    method InputEvent(chunk: seq<Byte>) returns (blocks: seq<seq<Byte>>)
      modifies this
      ensures Output(blocks, Model()) == Feed(old(Model()), chunk)
      ensures |buf| < MESSAGE_MAX
    {
      hide Check, FindSync, Drain, Begins, Noise, NeverBegins, GoodHeader;
      buf := buf + chunk;
      blocks := [];
      ghost var all := Drain(Model());
      LittleIsLeft(Model());
      while true
        invariant all == Output(blocks + Drain(Model()).blocks, Drain(Model()).reader)
        decreases |buf|
      {
        ghost var r := Model();
        var len := MsgblockCheck();
        if len == 0 {
          DrainStops(r);
          return;
        }
        if len > 0 {
          DrainBlock(r, len);
          blocks := blocks + [buf[..len]];
          buf := buf[len..];
        } else {
          DrainSkip(r, -len);
          buf := buf[-len..];
        }
      }
    }
  }
}
