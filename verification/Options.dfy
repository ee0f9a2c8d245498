/** The options of a SYN: src/tcp_output.cpp tcp_syn_options and
    tcp_write_syn_options, and src/tcp_input.cpp tcp_parse_opts. */
module Options {
  import opened Common

  const MSS: byte := 2
  const SACK_OK: byte := 4
  const TS: byte := 8

  /** The bytes reserved for the options of a SYN. */
  function SynOptionsLen(sackok: bool): nat {
    4 + if sackok then 4 else 0
  }

  /** The bytes written; the condition asks for the segment size, not for SACK. */
  function SynOptions(mss: nat): seq<byte>
    requires mss < 0x10000
  {
    var size: seq<byte> := [MSS, 4, mss / 0x100, mss % 0x100];
    var sack: seq<byte> := [NOOP, NOOP, SACK_OK, 2];
    if mss != 0 then size + sack else size
  }

  /** For a segment size that is set, what is written is what is reserved exactly
      when SACK is on. */
  lemma SynOptionsFit(sackok: bool, mss: nat)
    requires 0 < mss < 0x10000
    ensures |SynOptions(mss)| == SynOptionsLen(sackok) <==> sackok
  {}

  function Legal(mss: nat, smss: nat): nat {
    if 536 < mss <= 1460 then mss else smss
  }

  /** The segment size that is taken: the last legal one before the first option
      that is neither a segment size nor padding; nothing behind that is read. */
  function MssTaken(mem: nat -> byte, ptr: nat, optlen: nat, smss: nat): nat
    requires optlen < 256
    decreases if optlen < 20 then optlen else 0
  {
    if optlen == 0 || optlen >= 20 then smss
    else if mem(ptr) == MSS then
      MssTaken(mem, ptr + 4, (optlen + 252) % 256, Legal(0x100 * (mem(ptr + 2) as int) + mem(ptr + 3) as int, smss))
    else if mem(ptr) == NOOP then MssTaken(mem, ptr + 1, optlen - 1, smss)
    else smss
  }

  /** What a peer may put in front of other options. */
  datatype Item = Size(mss: nat) | Padding

  function Encode(items: seq<Item>): seq<byte>
    requires forall i :: 0 <= i < |items| && items[i].Size? ==> items[i].mss < 0x10000
  {
    if items == [] then []
    else match items[0]
      case Size(mss) => [2, 4, mss / 0x100, mss % 0x100] + Encode(items[1..])
      case Padding => [1] + Encode(items[1..])
  }

  /** The last size above 536 and up to 1460, or `smss` without one. */
  function LastLegal(items: seq<Item>, smss: nat): nat {
    if items == [] then smss
    else LastLegal(items[1..], if items[0].Size? && 536 < items[0].mss <= 1460 then items[0].mss else smss)
  }

  /** Of sizes and padding as a peer encodes them, up to the end or another option, the
      last legal size is taken. */
  lemma {:induction false} OffersRead(items: seq<Item>, mem: nat -> byte, ptr: nat, optlen: nat, smss: nat)
    requires forall i :: 0 <= i < |items| && items[i].Size? ==> items[i].mss < 0x10000
    requires |Encode(items)| <= optlen < 20
    requires forall k :: 0 <= k < |Encode(items)| ==> mem(ptr + k) == Encode(items)[k]
    requires optlen > |Encode(items)| ==> mem(ptr + |Encode(items)|) !in {1, 2}
    ensures MssTaken(mem, ptr, optlen, smss) == LastLegal(items, smss)
  {
    if items == [] {
    } else {
      var rest := items[1..];
      var width := |Encode(items)| - |Encode(rest)|;
      assert Encode(items)[width..] == Encode(rest);
      forall k | 0 <= k < |Encode(rest)|
        ensures mem(ptr + width + k) == Encode(rest)[k]
      {
        assert mem(ptr + (width + k)) == Encode(items)[width + k];
      }
      FirstRead(items, mem, ptr);
      OffersRead(rest, mem, ptr + width, optlen - width, if items[0].Size? then Legal(items[0].mss, smss) else smss);
    }
  }

  lemma FirstRead(items: seq<Item>, mem: nat -> byte, ptr: nat)
    requires forall i :: 0 <= i < |items| && items[i].Size? ==> items[i].mss < 0x10000
    requires items != [] && forall k :: 0 <= k < |Encode(items)| ==> mem(ptr + k) == Encode(items)[k]
    ensures match items[0]
            case Size(mss) => mem(ptr) == MSS && 0x100 * (mem(ptr + 2) as int) + mem(ptr + 3) as int == mss
            case Padding => mem(ptr) == NOOP
  {
    assert mem(ptr + 0) == Encode(items)[0];
    if items[0].Size? {
      assert mem(ptr + 2) == Encode(items)[2] && mem(ptr + 3) == Encode(items)[3];
    }
  }

  /** The fields of Tcp_Sock that options set. */
  class Negotiated {
    var smss: nat
    var sackok: bool
    var sacksAllowed: int
    var tsopt: bool

    /** `mem` is the memory behind the fixed header and hlen the length the header
        claims; the option length is a byte and wraps. Only the segment size and
        padding are stepped over, so anything else is read again and again: SACK
        stays on exactly when it is the first option, and then with four blocks. */
    method ParseOpts(mem: nat -> byte, hlen: nat)
      requires hlen <= 60
      modifies this
      ensures smss == old(smss) || 536 < smss <= 1460
      ensures sackok <==> old(sackok) && (20 < hlen < 40 ==> mem(0) == 4)
      ensures 20 < hlen < 40 && sackok ==> sacksAllowed == 4 && !tsopt && smss == old(smss)
      ensures !(20 < hlen < 40) ==> smss == old(smss) && sacksAllowed == old(sacksAllowed) && tsopt == old(tsopt)
      ensures 20 < hlen < 40 ==> (tsopt <==> old(tsopt) && mem(0) == 8)
      ensures smss == MssTaken(mem, 0, (hlen + 236) % 256, old(smss))
    {
      var ptr: nat, optlen: nat := 0, (hlen + 236) % 256;
      var sackSeen, tsSeen := false, false;
      ghost var begun, was := false, Fields();
      while 0 < optlen < 20
        invariant if begun then 20 < hlen < 40 else ptr == 0 && optlen == (hlen + 236) % 256
        invariant Parsing(mem, ptr, sackSeen, tsSeen, begun, was)
        invariant optlen < 256 && MssTaken(mem, ptr, optlen, smss) == MssTaken(mem, 0, (hlen + 236) % 256, was.0)
        decreases if optlen < 20 then optlen else 0
      {
        ptr, optlen, sackSeen, tsSeen := ParseOption(mem, ptr, optlen, sackSeen, tsSeen, begun, was);
        begun := true;
      }
    }

    function Fields(): (nat, bool, int, bool)
      reads this
    {
      (smss, sackok, sacksAllowed, tsopt)
    }

    /** The fields and locals of the loop, which began with the fields `was`. */
    ghost predicate Parsing(mem: nat -> byte, ptr: nat, sackSeen: bool, tsSeen: bool, begun: bool,
                            was: (nat, bool, int, bool))
      reads this
    {
      && (!begun ==> Fields() == was && ptr == 0 && !sackSeen && !tsSeen)
      && (smss == was.0 || 536 < smss <= 1460)
      && (begun && mem(0) == SACK_OK ==>
            && ptr == 0 && sackSeen && !tsSeen && !tsopt
            && smss == was.0 && sackok == was.1 && (sackok ==> sacksAllowed == 4))
      && (begun && mem(0) != SACK_OK ==> !sackok)
      && (begun && mem(0) == TS ==> ptr == 0 && tsSeen && tsopt == was.3)
      && (begun && mem(0) != TS ==> !tsopt)
    }

    method TakeMss(mem: nat -> byte, ptr: nat)
      modifies this`smss
      ensures smss == Legal(0x100 * (mem(ptr + 2) as int) + mem(ptr + 3) as int, old(smss))
    {
      var mss := 0x100 * (mem(ptr + 2) as int) + mem(ptr + 3) as int;
      if mss > 536 && mss <= 1460 {
        smss := mss;
      }
    }

    /** One turn: the option at ptr, and what its reading does to the fields. */
    method ParseOption(mem: nat -> byte, ptr: nat, optlen: nat, sackSeen: bool, tsSeen: bool,
                       ghost begun: bool, ghost was: (nat, bool, int, bool))
        returns (ptr': nat, optlen': nat, sackSeen': bool, tsSeen': bool)
      requires Parsing(mem, ptr, sackSeen, tsSeen, begun, was) && 0 < optlen < 20
      modifies this
      ensures Parsing(mem, ptr', sackSeen', tsSeen', true, was)
      ensures optlen' < optlen || 20 <= optlen' < 256
      ensures MssTaken(mem, ptr', optlen', smss) == MssTaken(mem, ptr, optlen, old(smss))
    {
      ptr', optlen', sackSeen', tsSeen' := ptr, optlen - 1, sackSeen, tsSeen;
      var kind := mem(ptr);
      if kind == MSS {
        TakeMss(mem, ptr);
        ptr' := ptr + 4;
        optlen' := (optlen + 252) % 256;
      } else if kind == NOOP {
        ptr' := ptr + 1;
      } else if kind == SACK_OK {
        sackSeen' := true;
      } else if kind == TS {
        tsSeen' := true;
      }
      Settle(sackSeen', tsSeen');
    }

    /** What the options read so far leave in the fields. */
    method Settle(sackSeen: bool, tsSeen: bool)
      modifies this`tsopt, this`sacksAllowed, this`sackok
      ensures tsopt == (old(tsopt) && tsSeen) && sackok == (old(sackok) && sackSeen)
      ensures sacksAllowed == if !(sackSeen && old(sackok)) then old(sacksAllowed) else if tsopt then 3 else 4
    {
      if !tsSeen {
        tsopt := false;
      }
      if sackSeen && sackok {
        sacksAllowed := if tsopt then 3 else 4;
      } else {
        sackok := false;
      }
    }
  }

  /** The options one socket writes, read by another: SACK comes after the segment
      size, so the reader turns it off, whoever the writer is. */
  method SynOptionsRead(mss: nat, tsk: Negotiated)
    requires 0 < mss < 0x10000
    modifies tsk
    ensures !tsk.sackok
    ensures tsk.smss == if 536 < mss <= 1460 then mss else old(tsk.smss)
  {
    var opts := SynOptions(mss);
    var mem: nat -> byte := (k: nat) => if k < |opts| then opts[k] else 0;
    ghost var taken := Legal(mss, tsk.smss);
    assert mem(0) == MSS && mem(4) == NOOP && mem(5) == NOOP && mem(6) == SACK_OK;
    assert MssTaken(mem, 6, 2, taken) == taken;
    assert MssTaken(mem, 5, 3, taken) == taken;
    assert MssTaken(mem, 4, 4, taken) == taken;
    tsk.ParseOpts(mem, 20 + |opts|);
  }
}
