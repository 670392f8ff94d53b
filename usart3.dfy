/**
 * The USART3 receive interrupt: a line framer that collects bytes up to a CR LF pair.
 * USART3_RX_STA is a 16-bit word: bit 15 says a line is complete, bit 14 says a CR
 * was just received, bits 13..0 count the stored payload bytes.
 */
module Usart3 {
  import opened Ints

  /** USART3_REC_LEN: the size of USART3_RX_BUF. */
  const REC_LEN := 200

  const CR: u8 := 0x0d
  const LF: u8 := 0x0a

  const DONE_BIT := 0x8000
  const CR_BIT := 0x4000

  /** Bit 15. */
  predicate Done(sta: u16)
  {
    sta >= DONE_BIT
  }

  /** Bit 14. */
  predicate CrSeen(sta: u16)
  {
    sta % DONE_BIT >= CR_BIT
  }

  /** The payload byte count held in bits 13..0 (sta & 0x3FFF). */
  function Count(sta: u16): int
  {
    sta % CR_BIT
  }

  /** sta | bit for a single-bit mask bit of the status word. */
  function SetBit(sta: u16, bit: int): (r: u16)
    requires bit == DONE_BIT || bit == CR_BIT
    ensures Count(r) == Count(sta)
    ensures bit == DONE_BIT ==> Done(r) && CrSeen(r) == CrSeen(sta)
    ensures bit == CR_BIT ==> CrSeen(r) && Done(r) == Done(sta)
  {
    if (sta / bit) % 2 == 1 then sta else sta + bit
  }

  /** A status word whose count is a valid buffer index. */
  predicate Bounded(sta: u16)
  {
    Count(sta) < REC_LEN
  }

  /** Whether the handler stores the received byte: no line pending, no CR just seen, not a CR. */
  predicate Stores(sta: u16, res: u8)
  {
    !Done(sta) && !CrSeen(sta) && res != CR
  }

  /** The status word after the handler has received one byte. */
  function NextStatus(sta: u16, res: u8): (r: u16)
    ensures Done(sta) ==> r == sta
    ensures !Done(sta) && CrSeen(sta) ==> (r == 0 <==> res != LF)
    ensures !Done(sta) && CrSeen(sta) && res == LF ==> Done(r) && CrSeen(r) && Count(r) == Count(sta)
    ensures !Done(sta) && !CrSeen(sta) && res == CR ==> !Done(r) && CrSeen(r) && Count(r) == Count(sta)
    ensures Stores(sta, res) && Bounded(sta) ==>
      r == (if Count(sta) + 1 < REC_LEN then Count(sta) + 1 else 0)
    ensures Bounded(sta) ==> Bounded(r)
  {
    if Done(sta) then sta
    else if CrSeen(sta) then
      if res != LF then 0 else SetBit(sta, DONE_BIT)
    else if res == CR then SetBit(sta, CR_BIT)
    else
      var n := Wrap16(sta + 1);
      if n > REC_LEN - 1 then 0 else n
  }

  /** The status after a sequence of bytes. */
  function FeedStatus(sta: u16, bytes: seq<u8>): u16
  {
    if |bytes| == 0 then sta else NextStatus(FeedStatus(sta, bytes[..|bytes| - 1]), bytes[|bytes| - 1])
  }

  /** The buffer after one byte (buf holds the REC_LEN bytes of USART3_RX_BUF). */
  function NextBuffer(sta: u16, buf: seq<u8>, res: u8): seq<u8>
    requires Bounded(sta) && |buf| == REC_LEN
  {
    if Stores(sta, res) then buf[Count(sta) := res] else buf
  }

  /** The buffer after a sequence of bytes. */
  function FeedBuffer(sta: u16, buf: seq<u8>, bytes: seq<u8>): (r: seq<u8>)
    requires Bounded(sta) && |buf| == REC_LEN
    ensures |r| == REC_LEN
  {
    if |bytes| == 0 then buf
    else
      var prefix := bytes[..|bytes| - 1];
      FeedStatusBounded(sta, prefix);
      NextBuffer(FeedStatus(sta, prefix), FeedBuffer(sta, buf, prefix), bytes[|bytes| - 1])
  }

  lemma {:induction false} FeedStatusBounded(sta: u16, bytes: seq<u8>)
    requires Bounded(sta)
    ensures Bounded(FeedStatus(sta, bytes))
  {
    if |bytes| > 0 {
      FeedStatusBounded(sta, bytes[..|bytes| - 1]);
    }
  }

  predicate NoCr(p: seq<u8>)
  {
    forall i :: 0 <= i < |p| ==> p[i] != CR
  }

  /**
   * From an empty status, a CR-free run of fewer than REC_LEN bytes is stored in order
   * at the front of the buffer and counted.
   */
  lemma {:induction false} PayloadStored(buf: seq<u8>, p: seq<u8>)
    requires |buf| == REC_LEN && NoCr(p) && |p| < REC_LEN
    ensures FeedStatus(0, p) == |p| && Count(|p|) == |p|
    ensures FeedBuffer(0, buf, p) == p + buf[|p|..]
  {
    if |p| > 0 {
      var q := p[..|p| - 1];
      PayloadStored(buf, q);
      assert FeedStatus(0, p) == NextStatus(|q|, p[|p| - 1]);
      assert q + [p[|p| - 1]] == p;
    }
  }

  /**
   * A line: a CR-free payload of fewer than REC_LEN bytes followed by CR LF leaves bit 15,
   * bit 14 and the payload length in the status, and the payload at the front of the buffer.
   */
  lemma LineReceived(buf: seq<u8>, p: seq<u8>)
    requires |buf| == REC_LEN && NoCr(p) && |p| < REC_LEN
    ensures var sta := FeedStatus(0, p + [CR, LF]);
      Done(sta) && CrSeen(sta) && Count(sta) == |p|
      && FeedBuffer(0, buf, p + [CR, LF])[..|p|] == p
  {
    PayloadStored(buf, p);
    var withCr := p + [CR];
    var line := p + [CR, LF];
    assert line[..|line| - 1] == withCr && withCr[..|withCr| - 1] == p;
    CrThenLf(|p|);
    var afterCr := NextStatus(|p|, CR);
    assert FeedStatus(0, withCr) == afterCr;
    assert FeedBuffer(0, buf, withCr) == p + buf[|p|..];
    assert FeedStatus(0, line) == NextStatus(afterCr, LF);
  }

  /** CR then LF after n stored bytes: bit 14, then bit 15, with the count kept. */
  lemma CrThenLf(n: int)
    requires 0 <= n < REC_LEN
    ensures var a := NextStatus(n, CR);
      CrSeen(a) && !Done(a) && Count(a) == n && Bounded(a)
      && var b := NextStatus(a, LF); Done(b) && CrSeen(b) && Count(b) == n
  {
  }

  /**
   * A payload that reaches REC_LEN bytes without a CR is dropped: the status returns
   * to 0 and reception starts over.
   */
  lemma OverlongLineDropped(buf: seq<u8>, p: seq<u8>)
    requires |buf| == REC_LEN && NoCr(p) && |p| == REC_LEN
    ensures FeedStatus(0, p) == 0
  {
    var q := p[..|p| - 1];
    PayloadStored(buf, q);
    assert FeedStatus(0, p) == NextStatus(|q|, p[|p| - 1]);
  }

  /** Once a line is complete, every further byte is ignored until the main loop clears the status. */
  lemma {:induction false} IgnoredWhileDone(sta: u16, buf: seq<u8>, bytes: seq<u8>)
    requires Done(sta) && Bounded(sta) && |buf| == REC_LEN
    ensures FeedStatus(sta, bytes) == sta && FeedBuffer(sta, buf, bytes) == buf
  {
    if |bytes| > 0 {
      IgnoredWhileDone(sta, buf, bytes[..|bytes| - 1]);
    }
  }

  /**
   * A CR is never stored, but an LF that does not follow a CR is stored like any
   * other byte.
   */
  lemma WhatIsStored(sta: u16)
    requires !Done(sta) && !CrSeen(sta)
    ensures !Stores(sta, CR) && Stores(sta, LF)
  {
  }

  /** USART3_RX_STA and USART3_RX_BUF. */
  class Receiver {
    var sta: u16
    const buf: array<u8>

    ghost predicate Valid()
      reads this
    {
      buf.Length == REC_LEN && Bounded(sta)
    }

    constructor ()
      ensures Valid() && sta == 0 && fresh(buf)
    {
      sta := 0;
      buf := new u8[REC_LEN](_ => 0);
    }

    /** USART3_IRQHandler with the RXNE flag set: receives the byte res. */
    method Receive(res: u8)
      requires Valid()
      modifies this`sta, buf
      ensures Valid()
      ensures sta == NextStatus(old(sta), res)
      ensures buf[..] == NextBuffer(old(sta), old(buf[..]), res)
    {
      if !Done(sta) {
        if CrSeen(sta) {
          if res != LF {
            sta := 0;
          } else {
            sta := SetBit(sta, DONE_BIT);
          }
        } else {
          if res == CR {
            sta := SetBit(sta, CR_BIT);
          } else {
            buf[Count(sta)] := res;
            sta := Wrap16(sta + 1);
            if sta > REC_LEN - 1 {
              sta := 0;
            }
          }
        }
      }
    }

    /** The main loop's acknowledgement of a handled line: USART3_RX_STA = 0. */
    method Clear()
      requires Valid()
      modifies this`sta
      ensures Valid() && sta == 0
    {
      sta := 0;
    }
  }
}
