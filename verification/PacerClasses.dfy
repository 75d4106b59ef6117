/** Which packets go first: by protocol, over packets built from their fields. */
module PacerClasses {
  import opened Bytes
  import opened IpPacket
  import opened Pacer

  /** An IPv4 packet: what is before and behind the protocol byte is anything. */
  datatype Ip = Ip(words: nat, front: seq<byte>, proto: byte, back: seq<byte>, options: seq<byte>, payload: seq<byte>)
  {
    predicate Ok() { 5 <= words < 16 && |front| == 8 && |back| == 10 && |options| == 4 * words - 20 }

    function Bytes(): (p: seq<byte>)
      requires Ok()
    {
      [0x40 + words] + front + [proto] + back + options + payload
    }
  }

  lemma {:induction false} Layout(p: Ip, i: nat)
    requires p.Ok()
    ensures var b := p.Bytes();
            && |b| == 4 * p.words + |p.payload| && b[0] == 0x40 + p.words && b[9] == p.proto && Ihl(b) == 4 * p.words
            && (i < |p.payload| ==> b[4 * p.words + i] == p.payload[i])
  {
    var b, a := p.Bytes(), [0x40 + p.words] + p.front + [p.proto] + p.back + p.options;
    assert b == a + p.payload && |a| == 4 * p.words;
    assert (0x40 + p.words) % 16 == p.words;
  }

  /** Pings go first, bulk of unknown protocols does not, and neither the header nor the payload plays a part. */
  lemma {:induction false} OtherProtocols(p: Ip)
    requires p.Ok()
    ensures p.proto == 1 ==> Interactive(p.Bytes())
    ensures p.proto !in {1, 6, 17} ==> !Interactive(p.Bytes())
  {
    Layout(p, 0);
    hide Ip.Bytes;
  }

  /** A datagram goes first exactly when it is to or from a name server's port. */
  lemma {:induction false} NameServiceFirst(p: Ip, from: nat, to: nat, rest: seq<byte>)
    requires p.Ok() && p.proto == 17 && from < 65536 && to < 65536
    ensures p.payload == Bytes2(from) + Bytes2(to) + rest ==> (Interactive(p.Bytes()) <==> from == 53 || to == 53)
    ensures |p.payload| < 4 ==> !Interactive(p.Bytes())
  {
    Layout(p, 0);
    Layout(p, 1);
    Layout(p, 2);
    Layout(p, 3);
    hide Ip.Bytes;
  }

  /** FIN, SYN, RST, and the five flags above them. */
  function FlagByte(fin: bool, syn: bool, rst: bool, others: nat): (r: byte)
    requires others < 32
  {
    8 * others + (if rst then 4 else 0) + (if syn then 2 else 0) + if fin then 1 else 0
  }

  /**
   * A TCP segment, whatever its addresses and options, goes first exactly when it opens, closes
   * or resets a connection or carries at most 64 bytes; one too short for a header does too.
   */
  lemma {:induction false} SmallSegmentsFirst(p: Ip, head: seq<byte>, reserved: nat, fin: bool, syn: bool, rst: bool, others: nat,
                                              tail: seq<byte>, options: seq<byte>, data: seq<byte>)
    requires p.Ok() && p.proto == 6 && |head| == 12 && reserved < 16 && others < 32 && |tail| == 6
    requires |options| % 4 == 0 && |options| <= 40
    ensures p.payload == head + [(5 + |options| / 4) * 16 + reserved, FlagByte(fin, syn, rst, others)] + tail + options + data ==>
              (Interactive(p.Bytes()) <==> fin || syn || rst || |data| <= 64)
    ensures |p.payload| < 20 ==> Interactive(p.Bytes())
  {
    Layout(p, 12);
    Layout(p, 13);
    hide Ip.Bytes;
    FlagBits(fin, syn, rst, others);
    Words(|options|, reserved);
  }

  lemma {:induction false} FlagBits(fin: bool, syn: bool, rst: bool, others: nat)
    requires others < 32
    ensures FlagByte(fin, syn, rst, others) % 8 != 0 <==> fin || syn || rst
  {
  }

  lemma {:induction false} Words(n: nat, reserved: nat)
    requires n % 4 == 0 && reserved < 16
    ensures ((5 + n / 4) * 16 + reserved) / 16 * 4 == 20 + n
  {
  }

  /** What is too short for an IPv4 header goes first. */
  lemma {:induction false} ShortFirst(p: seq<byte>)
    ensures |p| < 20 ==> Interactive(p)
  {
  }
}
