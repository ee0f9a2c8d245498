/** src/socket_buffer.cpp and the headers pushed by src/tcp_output.cpp,
    src/ip.cpp and src/network_device.cpp: where the data of a buffer begins. */
module SocketBuffers {
  import opened Common

  const ETH_HDR: nat := 14
  const IP_HDR: nat := 20
  const TCP_HDR: nat := 20

  /** A buffer of `size` bytes; `data` is the offset of the first used byte. */
  class SkBuff {
    const size: nat
    var data: int
    var len: nat
    var dataLen: nat

    constructor (size: nat)
      ensures this.size == size && data == 0 && len == 0 && dataLen == 0
    {
      this.size := size;
      data, len, dataLen := 0, 0, 0;
    }

    method ReserveHeadroom(headroom: nat)
      modifies this`data
      ensures data == old(data) + headroom
    {
      data := data + headroom;
    }

    method Push(n: nat)
      modifies this`data, this`len
      ensures data == old(data) - n && len == old(len) + n
    {
      data := data - n;
      len := len + n;
    }

    method ResetHeader()
      modifies this`data, this`len
      ensures data == size - dataLen && len == dataLen
    {
      data := size - dataLen;
      len := dataLen;
    }
  }

  /** tcp_alloc_skb. */
  method AllocSkb(optLen: nat, size: nat) returns (skb: SkBuff)
    ensures fresh(skb) && skb.size == 54 + optLen + size
    ensures skb.data == skb.size && skb.len == 0 && skb.dataLen == size
  {
    skb := new SkBuff(ETH_HDR + IP_HDR + TCP_HDR + optLen + size);
    skb.ReserveHeadroom(skb.size);
    skb.dataLen := size;
  }

  /** Header length in words: 5, and those of the options. */
  function HeaderWords(optLen: nat): nat {
    TCP_HDR / 4 + optLen / 4
  }

  /** The pushes of tcp_transmit_skb, ip_output and netdev_transmit. */
  method PushHeaders(skb: SkBuff, hl: nat)
    modifies skb`data, skb`len
    ensures skb.data == old(skb.data) - (4 * hl + IP_HDR + ETH_HDR)
    ensures skb.len == old(skb.len) + (4 * hl + IP_HDR + ETH_HDR)
  {
    skb.Push(4 * hl);
    skb.Push(IP_HDR);
    skb.Push(ETH_HDR);
  }

  /** A buffer is allocated, filled and sent, and later sent again: each time the
      frame begins at the first byte of the buffer and fills it, exactly when the
      options are whole words. */
  method SendTwice(optLen: nat, size: nat) returns (skb: SkBuff, first: int, again: int)
    ensures fresh(skb)
    ensures first == again
    ensures first == 0 <==> optLen % 4 == 0
    ensures optLen % 4 == 0 ==> skb.len == skb.size
    ensures first >= 0
  {
    skb := AllocSkb(optLen, size);
    skb.Push(size);
    PushHeaders(skb, HeaderWords(optLen));
    first := skb.data;
    skb.ResetHeader();
    PushHeaders(skb, HeaderWords(optLen));
    again := skb.data;
  }

  /** tcp_init_segment: the bytes of a segment behind its TCP header, from the total
      length of the datagram and the two header lengths. Written: the TCP header is
      added (src/tcp.cpp:419). Intended: it is taken away. */
  function TextLength(form: Form, total: nat, ipHdr: nat, tcpHdr: nat): int {
    if form.Written? then total - ipHdr + tcpHdr else total - ipHdr - tcpHdr
  }

  /** For a datagram that holds its headers, the intended length is what is left
      behind them; the written one is that only without a TCP header, and else two
      headers too long, so no segment ever seems empty. */
  lemma TextLengthIsRest(total: nat, ipHdr: nat, tcpHdr: nat, text: nat)
    requires total == ipHdr + tcpHdr + text
    ensures TextLength(Intended, total, ipHdr, tcpHdr) == text
    ensures TextLength(Written, total, ipHdr, tcpHdr) == text <==> tcpHdr == 0
    ensures tcpHdr >= TCP_HDR ==> TextLength(Written, total, ipHdr, tcpHdr) >= 2 * TCP_HDR
  {}
}
