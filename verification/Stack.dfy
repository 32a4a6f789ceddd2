/** The block layer under the driver's wire: what the link returns over a bus that loses and distorts is
    one of the outcomes the wire's schedule of faults allows. */
module Stack {
  import opened Bytes
  import opened Wrappers
  import opened Card
  import Link

  /** The octets of an APDU as the link handles them. */
  function Octets(s: seq<byte>): (r: seq<Link.octet>)
    ensures |r| == |s|
  {
    seq(|s|, i requires 0 <= i < |s| => s[i] as bv8)
  }

  const BUFFER: nat := 288

  /** The bus of one APDU from exchange `k` on, with the chip behind it: the command is not acknowledged,
      or the chip sends requests for time and then its answer, each block carried, lost or distorted. */
  ghost predicate Serves(bus: Link.Bus, k: nat, attempts: nat, blocks: nat -> seq<Link.octet>, arrives: bool, answer: seq<byte>) {
    if !arrives then !bus.acked(k)
    else
      forall m: nat :: m >= k ==>
        && Link.Carries(bus, m, attempts, blocks(m))
        && (blocks(m)[1] != Link.PCB_WTX_REQUEST ==> blocks(m)[3..|blocks(m)| - 2] == Octets(answer))
  }

  /** Whatever the bus does, there is a fate under which the wire's exchange changes the chip as `f` does and
      returns what the link returns: the chip's whole answer, or nothing. */
  lemma LinkRealisesFate(chip: Chip, s: CardState, f: Fate, apdu: seq<byte>,
                         bus: Link.Bus, k: nat, attempts: nat, blocks: nat -> seq<Link.octet>)
    requires Serves(bus, k, attempts, blocks, f.arrives, Answer(chip, Settle(s, f), apdu).1)
    ensures var rx := Link.Await(bus, k, 0, attempts, BUFFER).0;
            var g := Fate(f.reset, f.arrives, rx != []);
            && Exchange(chip, s, g, apdu).0 == Exchange(chip, s, f, apdu).0
            && match Exchange(chip, s, g, apdu).1
               case None => rx == []
               case Some(answer) => rx != [] && rx[3..3 + Link.Announced(rx[2])] == Octets(answer)
  {
    hide Answer, Reset, Octets, Link.Carries, Link.Announced, Link.Await;
    var rx := Link.Await(bus, k, 0, attempts, BUFFER).0;
    if f.arrives {
      Link.AnsweredOrLost(bus, k, 0, attempts, blocks);
      if rx != [] {
        Payload(rx);
      }
    } else {
      NotAcked(bus, k, attempts);
    }
  }

  lemma NotAcked(bus: Link.Bus, k: nat, attempts: nat)
    requires !bus.acked(k)
    ensures Link.Await(bus, k, 0, attempts, BUFFER).0 == []
  {
  }

  /** A kept block is header, payload and CRC. */
  lemma Payload(rx: seq<Link.octet>)
    requires |rx| >= 5 && |rx| == 5 + Link.Announced(rx[2])
    ensures rx[3..|rx| - 2] == rx[3..3 + Link.Announced(rx[2])]
  {
    hide Link.Announced;
  }

  /** The block the link sends for an APDU is the APDU, as it stands. */
  lemma SentAsItStands(ns: bool, apdu: seq<byte>)
    requires |apdu| <= 255
    ensures Link.CrcOk(Link.IBlock(ns, Octets(apdu))) && Link.IBlock(ns, Octets(apdu))[3..3 + |apdu|] == Octets(apdu)
  {
    Link.IBlockWellFormed(ns, Octets(apdu));
  }
}
