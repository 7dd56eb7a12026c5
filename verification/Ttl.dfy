/** How far decoys travel: the estimate of the distance to the other end, and the TTL chosen from it. */
module Ttl {
  import opened Wrappers

  /** hop_estimate; common initial TTLs are 64, 128 and 255. */
  function HopEstimate(ttl: byte): (hops: nat) {
    if ttl <= 64 then 64 - ttl as int else if ttl <= 128 then 128 - ttl as int else 255 - ttl as int
  }

  /** calc_snd_ttl; a percentage of zero means none is set. The last conversion is to an unsigned byte. */
  function SendTtl(hops: nat, ttl: byte, percent: nat): (r: byte) {
    if percent == 0 then ttl
    else if hops * percent / 100 > ttl as int then ((hops * percent / 100) % 256) as byte
    else ttl
  }

  /** The TTL of the decoys for a peer whose packet came with peerTtl, or None when none are sent. */
  function Decoy(ttl: byte, percent: nat, estimate: bool, peerTtl: byte): (r: Option<byte>) {
    if !estimate then Some(ttl)
    else if HopEstimate(peerTtl) <= ttl as int then None
    else Some(SendTtl(HopEstimate(peerTtl), ttl, percent))
  }

  lemma PercentOf(hops: nat, percent: nat)
    requires percent < 100 && 0 < hops <= 255
    ensures hops * percent / 100 < hops
  {
    assert hops * percent <= hops * 99;
  }

  /** With estimation on, decoys are sent exactly when the peer is estimated to be further away than the configured
      TTL, and then they go at least that far but die before they reach it. */
  lemma DecoyDiesOnTheWay(ttl: byte, percent: nat, peerTtl: byte)
    requires percent < 100
    ensures Decoy(ttl, percent, true, peerTtl).Some? <==> HopEstimate(peerTtl) > ttl as int
    ensures var d := Decoy(ttl, percent, true, peerTtl);
            d.Some? ==>
              && ttl <= d.value && (d.value as int) < HopEstimate(peerTtl)
              && (d.value as int) >= HopEstimate(peerTtl) * percent / 100
  {
    if HopEstimate(peerTtl) > ttl as int {
      PercentOf(HopEstimate(peerTtl), percent);
    }
  }

  /** Exactly how far: as far as configured, or as the percentage of the estimated distance goes, rounded down, whichever
      is further; and without estimation always as far as configured. */
  lemma DecoyGoesExactly(ttl: byte, percent: nat, peerTtl: byte)
    requires percent < 100
    ensures Decoy(ttl, percent, false, peerTtl) == Some(ttl)
    ensures var hops, d := HopEstimate(peerTtl), Decoy(ttl, percent, true, peerTtl);
            d.Some? ==>
              && ttl <= d.value && hops * percent < 100 * (d.value as int + 1)
              && (d.value == ttl || 100 * (d.value as int) <= hops * percent)
  {
    if HopEstimate(peerTtl) > ttl as int {
      PercentOf(HopEstimate(peerTtl), percent);
    }
  }

  /** The estimate is the distance exactly when the packet has not come so far that its TTL looks like that of a host
      with a smaller initial value. */
  lemma EstimateIsExact(initial: nat, distance: nat)
    requires initial == 64 || initial == 128 || initial == 255
    requires distance <= initial
    ensures HopEstimate((initial - distance) as byte) == distance <==>
            initial == 64 || (initial == 128 && distance < 64) || (initial == 255 && distance < 127)
  {
  }
}
