/** The `net.Conn` face of a session: reads come from the session's receive channel through
    a leftover buffer, writes go to its transmit buffer. */
module VirtualConns {
  import opened Prelude
  import opened TxSpec
  import opened Sessions

  const READ_IDLE_TIMEOUT: int := 30

  datatype ReadResult = Data(bytes: Bytes) | Eof | IdleTimeout | DeadlineExceeded | NothingYet

  /** Which timer, if any, wins the `select` against the channel. */
  datatype Timer = NoTimer | DeadlineTimer | IdleTimer

  datatype Peeled = Peeled(data: Bytes, readBuf: Bytes, items: seq<Bytes>)

  /** What a read of at most `cap` bytes takes: from the leftover if there is one, else
      from the first non-empty payload in the channel. */
  function Peel(readBuf: Bytes, items: seq<Bytes>, cap: nat): Option<Peeled>
    decreases |items|
  {
    if |readBuf| > 0 then
      var n := Min(cap, |readBuf|);
      Some(Peeled(readBuf[..n], readBuf[n..], items))
    else if |items| == 0 then None
    else if |items[0]| == 0 then Peel([], items[1..], cap)
    else
      var n := Min(cap, |items[0]|);
      Some(Peeled(items[0][..n], items[0][n..], items[1..]))
  }

  /** A read takes a prefix of the waiting bytes and keeps all the rest, in order; it comes
      back empty-handed only if asked for nothing or if nothing is waiting. */
  lemma {:induction false} PeelConserves(readBuf: Bytes, items: seq<Bytes>, cap: nat)
    ensures var waiting := readBuf + Flatten(items);
            match Peel(readBuf, items, cap)
            case None => waiting == []
            case Some(p) =>
              && p.data + (p.readBuf + Flatten(p.items)) == waiting
              && |p.data| <= cap
              && (cap > 0 ==> |p.data| > 0)
              && (|p.data| == cap || p.readBuf == [])
    decreases |items|
  {
    if |readBuf| > 0 {
      var n := Min(cap, |readBuf|);
      Assoc(readBuf[..n], readBuf[n..], Flatten(items));
    } else if |items| > 0 {
      if |items[0]| == 0 {
        PeelConserves([], items[1..], cap);
      } else {
        var n := Min(cap, |items[0]|);
        assert items[0] == items[0][..n] + items[0][n..];
        Assoc(items[0][..n], items[0][n..], Flatten(items[1..]));
      }
    }
  }

  class VirtualConn {
    const s: Session
    var readBuf: Bytes
    var readDeadline: Stamp
    var lastActive: int

    constructor (s: Session, now: int)
      ensures this.s == s && readBuf == [] && readDeadline == Never && lastActive == now
    {
      this.s := s;
      readBuf, readDeadline, lastActive := [], Never, now;
    }

    /** The bytes waiting for this reader. */
    function Waiting(): Bytes
      reads this, s
    {
      readBuf + Flatten(s.rxChan)
    }

    /** A call that would wait reports `NothingYet`. Whatever the outcome, no byte is lost:
        what is returned followed by what still waits is what waited before. */
    method Read(cap: nat, now: int, fired: Timer) returns (r: ReadResult)
      modifies this`readBuf, this`lastActive, s`rxChan, s`closeReq, s`firstQueuedAt
      ensures (if r.Data? then r.bytes else []) + Waiting() == old(Waiting())
      ensures r.Data? ==> Peel(old(readBuf), old(s.rxChan), cap) == Some(Peeled(r.bytes, readBuf, s.rxChan))
      ensures r == Eof ==> s.rxChanClosed && Waiting() == []
      ensures r == NothingYet ==> !s.rxChanClosed && Waiting() == []
      ensures s.Tx() == if r == IdleTimeout then Apply(old(s.Tx()), Close) else old(s.Tx())
      ensures lastActive == if r.Data? && old(readBuf) == [] then now else old(lastActive)
      ensures r.Data? ==> |r.bytes| <= cap && (|r.bytes| == cap || readBuf == []) && (cap > 0 ==> r.bytes != [])
      ensures old(readBuf) != [] ==> r.Data? && s.rxChan == old(s.rxChan)
      ensures r == IdleTimeout <==>
                old(readBuf) == [] && (now - old(lastActive) > 30 || (fired == IdleTimer && !(readDeadline.At? && readDeadline.time <= now)))
      ensures r == DeadlineExceeded <==>
                old(readBuf) == [] && now - old(lastActive) <= 30 && readDeadline.At?
                && (readDeadline.time <= now || fired == DeadlineTimer)
      ensures s.closeReq == (old(s.closeReq) || r == IdleTimeout)
    {
      ghost var buf0, items0 := readBuf, s.rxChan;
      PeelConserves(buf0, items0, cap);
      while true
        invariant s.Tx() == old(s.Tx())
        invariant Waiting() == old(Waiting())
        invariant readBuf == old(readBuf) && lastActive == old(lastActive)
        invariant Peel(readBuf, s.rxChan, cap) == Peel(buf0, items0, cap)
        decreases |s.rxChan|
      {
        if |readBuf| > 0 {
          var n := Min(cap, |readBuf|);
          var data := readBuf[..n];
          readBuf := readBuf[n..];
          return Data(data);
        }
        if now - lastActive > READ_IDLE_TIMEOUT {
          s.RequestClose(now);
          return IdleTimeout;
        }
        if readDeadline != Never && readDeadline.time - now <= 0 {
          return DeadlineExceeded;
        }
        if fired == DeadlineTimer && readDeadline != Never {
          return DeadlineExceeded;
        }
        if fired == IdleTimer {
          s.RequestClose(now);
          return IdleTimeout;
        }
        if |s.rxChan| == 0 {
          return if s.rxChanClosed then Eof else NothingYet;
        }
        var data := s.rxChan[0];
        s.rxChan := s.rxChan[1..];
        if |data| > 0 {
          lastActive := now;
          var n := Min(cap, |data|);
          if n < |data| {
            readBuf := data[n..];
          }
          return Data(data[..n]);
        }
      }
    }

    /** Every byte is reported written, also those the session drops after a close. A call
        that would wait has neither written nor returned anything yet. */
    method Write(b: Bytes, now: int) returns (r: EnqueueResult, n: nat)
      modifies this`lastActive, s`txBuf, s`firstQueuedAt
      ensures r == WouldBlock <==> b != [] && Blocked(old(s.Tx()), Initial(b))
      ensures n == if r == WouldBlock then 0 else |b|
      ensures s.Tx() == if b == [] || r == WouldBlock then old(s.Tx()) else Apply(old(s.Tx()), Initial(b))
      ensures lastActive == if b == [] || r == WouldBlock then old(lastActive) else now
      ensures r == Dropped ==> s.Tx() == old(s.Tx())
      ensures s.txBuf == if r == Accepted then old(s.txBuf) + b else old(s.txBuf)
    {
      r, n := Accepted, |b|;
      if |b| > 0 {
        r := s.EnqueueInitialData(b, now);
        if r == WouldBlock {
          return r, 0;
        }
        lastActive := now;
      }
    }
  }
}
