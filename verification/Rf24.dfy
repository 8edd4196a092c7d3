/** The application's radio thread and send routine: seal once, retry the same frame, open and drop. */
module Rf24 {
  import opened Bytes
  import opened Xxtea
  import opened RadioCrypt
  import opened Wrappers

  const RF24_PAYLOAD_MAX := 32
  const RF24_ID_SIZE := 2
  const RF24_TX_RETRIES := 5

  function Copies(frame: seq<byte>, n: nat): seq<seq<byte>> {
    seq(n, _ => frame)
  }

  class Radio {
    const crypt: Crypt
    /** Every frame handed to the transceiver, oldest first. */
    var air: seq<seq<byte>>

    constructor (crypt: Crypt)
      ensures this.crypt == crypt && air == []
    {
      this.crypt := crypt;
      air := [];
    }

    /**
      rf24_data_send; `acked(k)` says whether attempt k was acknowledged. The text is sealed once and
      one counter value is used up, however many attempts go on the air; all of them are the same frame.
     */
    method Rf24DataSend(canId: uint16, data: seq<byte>, acked: nat -> bool) returns (ok: bool, attempts: nat)
      modifies this, crypt`txCounter
      ensures |data| > RF24_PAYLOAD_MAX - RF24_ID_SIZE - 1 ==>
                !ok && attempts == 0 && air == old(air) && crypt.txCounter == old(crypt.txCounter)
      ensures |data| <= RF24_PAYLOAD_MAX - RF24_ID_SIZE - 1 ==>
                && 1 <= attempts <= RF24_TX_RETRIES + 1
                && ok == acked(attempts - 1)
                && (forall k | 0 <= k < attempts - 1 :: !acked(k))
                && (!ok ==> attempts == RF24_TX_RETRIES + 1)
                && crypt.txCounter == Plus(old(crypt.txCounter), 1)
                && air == old(air) + Copies(Seal(crypt.key, old(crypt.txCounter), Be16(canId) + data), attempts)
    {
      hide Seal;
      hide Plus;
      ok, attempts := false, 0;
      if |data| > RF24_PAYLOAD_MAX - RF24_ID_SIZE - 1 {
        return;
      }
      var text := Be16(canId) + data;
      var buf := new byte[RF24_PAYLOAD_MAX](i => if 0 <= i < |text| then text[i] else 0);
      assert buf[..][..|text|] == text;
      var frameLen := crypt.SealFrame(buf, |text|);
      if frameLen == 0 {
        return;
      }
      var frame := buf[..frameLen];
      ghost var before := air;
      while true
        invariant 0 <= attempts <= RF24_TX_RETRIES
        invariant forall k | 0 <= k < attempts :: !acked(k)
        invariant air == before + Copies(frame, attempts)
        invariant crypt.txCounter == Plus(old(crypt.txCounter), 1)
        decreases RF24_TX_RETRIES - attempts
      {
        air := air + [frame];
        attempts := attempts + 1;
        assert Copies(frame, attempts) == Copies(frame, attempts - 1) + [frame];
        ok := acked(attempts - 1);
        if ok || attempts > RF24_TX_RETRIES {
          return;
        }
      }
    }

    /** One pass of rf24_rx_thread: the CAN id and payload handed on, or nothing when the frame is dropped. */
    method Rf24Receive(frame: seq<byte>) returns (msg: Option<(uint16, seq<byte>)>)
      modifies crypt`rxCounter, crypt`rxInitialized
      ensures var (rx, plain) := Open(crypt.key, old(crypt.Rx()), frame);
              && crypt.Rx() == rx
              && (plain == None ==> msg == None)
              && (plain.Some? ==> msg.Some? && Be16(msg.value.0) + msg.value.1 == plain.value)
    {
      hide CtrXor;
      if |frame| < RF24_ID_SIZE {
        return None;
      }
      var buf := new byte[|frame|](i requires 0 <= i < |frame| => frame[i]);
      assert buf[..] == frame && buf[..|frame|] == frame;
      var len := crypt.OpenFrame(buf, |frame|);
      if len == 0 {
        return None;
      }
      var plain := buf[..len];
      assert plain == plain[..2] + plain[2..];
      return Some((FromBe16(plain[..2]), plain[2..]));
    }
  }
}
