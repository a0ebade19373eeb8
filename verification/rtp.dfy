/** The outbound RTP clock of one endpoint (`Endpoint::send_mix`, src/session.rs). */
module Rtp {
  import opened Wrappers
  import Mixer

  /** The stamp of the `k`-th frame that was encoded, counted from zero. */
  function Stamp(start: int, k: nat): int {
    (start + Mixer.FRAME_SAMPLES * k) % U32
  }

  /** One packet handed to the track. */
  datatype Packet = Packet(payload: seq<int>, stamp: int)

  class Endpoint {
    var packetTimestamp: int
    ghost var start: int
    /** Every frame the encoder accepted, in the order of the calls. */
    ghost var encoded: seq<Packet>
    /** The packets the track took. */
    var written: seq<Packet>

    ghost predicate Valid()
      reads this
    {
      && packetTimestamp == Stamp(start, |encoded|)
      && (forall k: nat :: k < |encoded| ==> encoded[k].stamp == Stamp(start, k))
    }

    constructor (start: int)
      requires 0 <= start < U32
      ensures Valid() && this.start == start && encoded == [] && written == []
    {
      packetTimestamp := start;
      this.start := start;
      encoded := [];
      written := [];
    }

    /** Encoding may fail, which leaves the clock alone, and so may the write, which does
        not: the stamp of a packet lost there is never used again. */
    method SendMix(encoding: Option<seq<int>>, trackTakesIt: bool) returns (ok: bool)
      requires Valid()
      modifies this
      ensures Valid() && start == old(start)
      ensures encoding.None? ==> !ok && encoded == old(encoded) && written == old(written)
      ensures encoding.Some? ==>
                encoded == old(encoded) + [Packet(encoding.value, Stamp(start, |old(encoded)|))]
      ensures encoding.Some? ==> ok == trackTakesIt
      ensures written == if ok then old(written) + [encoded[|encoded| - 1]] else old(written)
    {
      if encoding.None? {
        return false;
      }
      var cur := packetTimestamp;
      packetTimestamp := (cur + Mixer.FRAME_SAMPLES) % U32;
      var packet := Packet(encoding.value, cur);
      NextStamp(start, |encoded|);
      encoded := encoded + [packet];
      if !trackTakesIt {
        return false;
      }
      written := written + [packet];
      return true;
    }
  }

  /** The stamps begin where the clock was set and go on in steps of 960, modulo 2^32. */
  lemma NextStamp(start: int, k: nat)
    ensures 0 <= start < 0x1_0000_0000 ==> Stamp(start, 0) == start
    ensures Stamp(start, k + 1) == (Stamp(start, k) + 960) % 0x1_0000_0000
  {
    var x := start + Mixer.FRAME_SAMPLES * k;
    assert start + Mixer.FRAME_SAMPLES * (k + 1) == x + 960;
    ResidueOfSum(x, 960);
  }

  lemma ResidueOfSum(x: int, d: int)
    ensures (x % U32 + d) % U32 == (x + d) % U32
  {
    ResidueStays(x % U32 + d, x / U32);
    assert x % U32 + d + U32 * (x / U32) == x + d;
  }

  /** Two frames carry the same stamp exactly when a multiple of 2^26 frames lies between
      them, so any 2^26 consecutive stamps are different. */
  lemma StampsRepeat(start: int, i: nat, j: nat)
    ensures Stamp(start, i) == Stamp(start, j) <==> (i - j) % 0x400_0000 == 0
  {
    var x, y := start + Mixer.FRAME_SAMPLES * i, start + Mixer.FRAME_SAMPLES * j;
    var d := i - j;
    assert x == y + Mixer.FRAME_SAMPLES * d;
    if x % U32 == y % U32 {
      var m := x / U32 - y / U32;
      SameResidue(x, y, m);
      assert 15 * d == 0x400_0000 * m;
      FifteenIsInvertible(d, m);
    }
    if d % 0x400_0000 == 0 {
      var k := d / 0x400_0000;
      assert d == 0x400_0000 * k;
      assert x == y + U32 * (15 * k);
      ResidueStays(y, 15 * k);
    }
  }

  lemma SameResidue(x: int, y: int, m: int)
    requires x % U32 == y % U32 && m == x / U32 - y / U32
    ensures x - y == U32 * m
  {
  }

  lemma ResidueStays(y: int, n: int)
    ensures (y + U32 * n) % U32 == y % U32
  {
  }

  lemma FifteenIsInvertible(d: int, m: int)
    requires 15 * d == 0x400_0000 * m
    ensures d % 0x400_0000 == 0
  {
    // 49213167 is the inverse of 15 modulo 2^26
    assert 49213167 * 15 == 0x400_0000 * 11 + 1;
    assert d == 0x400_0000 * (49213167 * m - 11 * d);
  }
}
