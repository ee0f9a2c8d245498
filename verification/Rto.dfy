/** src/tcp.cpp tcp_rtt and the backoff in src/tcp_output.cpp: the estimator and
    the retransmission timer (RFC 6298). Times are in milliseconds. */
module Rto {
  import opened Common

  /** The estimator's fields of Tcp_Sock. */
  datatype Rtt = Rtt(srtt: int, rttvar: int, rto: int, backoff: nat)

  function Abs(x: int): nat {
    if x < 0 then -x else x
  }

  /** A sample of r milliseconds. The weights are powers of two, so the products
      are exact and only the stores into integers round down. */
  function Sample(t: Rtt, r: int): Rtt {
    if r < 0 then t
    else
      var t' := if t.srtt == 0 then t.(srtt := r, rttvar := r / 2)
                else t.(rttvar := (3 * t.rttvar + Abs(t.srtt - r)) / 4, srtt := (7 * t.srtt + r) / 8);
      t'.(rto := t'.srtt + Max(4 * t'.rttvar, 200))
  }

  /** tcp_rtt at an acknowledgment: no sample while backed off or without a timer;
      the start of the timer is taken to be its expiry less the current rto. */
  function OnAck(t: Rtt, expires: Option<int>, tick: int): Rtt {
    if t.backoff > 0 || expires.None? then t
    else Sample(t, tick - (expires.value - t.rto))
  }

  function Samples(t: Rtt, rs: seq<int>): Rtt {
    if rs == [] then t else Sample(Samples(t, rs[..|rs| - 1]), rs[|rs| - 1])
  }

  /** Samples between lo and hi keep the estimate between lo and hi, the variance
      below the larger of hi / 2 and hi - lo, and the timeout in the matching
      range, from the first sample on. */
  lemma {:induction false} SamplesBounded(t: Rtt, rs: seq<int>, lo: nat, hi: nat)
    requires rs != [] && t.srtt == 0
    requires forall i :: 0 <= i < |rs| ==> lo <= rs[i] <= hi
    ensures var t', v := Samples(t, rs), Max(hi / 2, hi - lo);
            && lo <= t'.srtt <= hi
            && 0 <= t'.rttvar <= v
            && lo + 200 <= t'.rto <= hi + Max(200, 4 * v)
  {
    var p := rs[..|rs| - 1];
    if p != [] {
      SamplesBounded(t, p, lo, hi);
    } else {
      assert Samples(t, p) == t;
    }
  }

  lemma {:induction false} RepeatedSamples(t: Rtt, r: nat, n: nat)
    requires t.srtt == 0 && n > 0
    ensures var t' := Samples(t, Repeat(r, n));
            t'.srtt == r && 0 <= t'.rttvar <= Max(0, r / 2 - (n - 1)) && t'.rto == r + Max(4 * t'.rttvar, 200)
  {
    assert Repeat(r, n)[..|Repeat(r, n)| - 1] == Repeat(r, n - 1);
    if n == 1 {
      assert Samples(t, Repeat(r, 0)) == t;
    } else {
      RepeatedSamples(t, r, n - 1);
      OneMoreSample(Samples(t, Repeat(r, n - 1)), r);
    }
  }

  /** A sample like all before it leaves the estimate and lowers a variance. */
  lemma OneMoreSample(t: Rtt, r: nat)
    requires t.srtt == r && t.rttvar >= 0
    ensures var t' := Sample(t, r);
            t'.srtt == r && 0 <= t'.rttvar <= Max(0, t.rttvar - 1) && t'.rto == r + Max(4 * t'.rttvar, 200)
  {}

  /** On a path with a constant round trip the timeout settles at the round trip
      and 200 milliseconds, after at most r / 2 + 1 samples. */
  lemma ConstantPathSettles(t: Rtt, r: nat, n: nat)
    requires t.srtt == 0 && n > r / 2
    ensures var t' := Samples(t, Repeat(r, n)); t'.srtt == r && t'.rttvar == 0 && t'.rto == r + 200
  {
    RepeatedSamples(t, r, n);
  }

  // ------------------------------------------------------------- the two averages

  /** The first sample is the estimate, and half of it the variance. Every later one
      moves the estimate by an eighth of its distance and the variance by a quarter of
      the distance to the error, both rounded down; the error is taken from the old
      estimate. The timeout is the estimate and four variances, 200 ms at least. */
  lemma SampleMoves(t: Rtt, r: nat)
    ensures var t' := Sample(t, r);
            && (t.srtt == 0 ==> t'.srtt == r && -2 < 2 * t'.rttvar - r <= 0)
            && (t.srtt != 0 ==> -8 < 8 * (t'.srtt - t.srtt) - (r - t.srtt) <= 0)
            && (t.srtt != 0 ==> -4 < 4 * (t'.rttvar - t.rttvar) - (Abs(t.srtt - r) - t.rttvar) <= 0)
            && t'.rto - t'.srtt == Max(200, 4 * t'.rttvar) && t'.backoff == t.backoff
  {}

  /** The mean in which every sample weighs an eighth and what came before it seven. */
  ghost function Mean(first: real, rs: seq<int>): real {
    if rs == [] then first else 0.875 * Mean(first, rs[..|rs| - 1]) + 0.125 * rs[|rs| - 1] as real
  }

  /** Over any samples the estimate is that mean, less than seven milliseconds below it
      and never above, as long as it is not 0: the rounding of all the samples does not
      add up. */
  lemma {:induction false} EstimateIsMean(t: Rtt, rs: seq<int>)
    requires forall i :: 0 <= i < |rs| ==> rs[i] >= 0 && Samples(t, rs[..i]).srtt > 0
    ensures var s, m := Samples(t, rs).srtt, Mean(t.srtt as real, rs); m - 7.0 < s as real <= m
  {
    if rs == [] {
    } else {
      var p, r := rs[..|rs| - 1], rs[|rs| - 1];
      forall i | 0 <= i < |p|
        ensures Samples(t, p[..i]).srtt > 0
      {
        assert p[..i] == rs[..i];
      }
      EstimateIsMean(t, p);
      SampleMoves(Samples(t, p), r);
      var s, s' := Samples(t, p).srtt, Samples(t, rs).srtt;
      assert 7 * s + r - 7 <= 8 * s' <= 7 * s + r;
      assert 7.0 * s as real + r as real - 7.0 <= 8.0 * s' as real <= 7.0 * s as real + r as real;
    }
  }

  lemma {:induction false} StaysPositive(t: Rtt, rs: seq<int>, k: nat)
    requires t.srtt > 0 && k <= |rs| && forall i :: 0 <= i < |rs| ==> rs[i] > 0
    ensures Samples(t, rs[..k]).srtt > 0
    decreases k
  {
    if k > 0 {
      StaysPositive(t, rs, k - 1);
      assert rs[..k][..k - 1] == rs[..k - 1];
      SampleMoves(Samples(t, rs[..k - 1]), rs[k - 1]);
    }
  }

  lemma PositiveIsMean(t: Rtt, rs: seq<int>)
    requires t.srtt > 0 && forall i :: 0 <= i < |rs| ==> rs[i] > 0
    ensures var s, m := Samples(t, rs).srtt, Mean(t.srtt as real, rs); m - 7.0 < s as real <= m
  {
    forall i | 0 <= i < |rs|
      ensures Samples(t, rs[..i]).srtt > 0
    {
      StaysPositive(t, rs, i);
    }
    EstimateIsMean(t, rs);
  }

  /** An estimate of 0 is taken for none: after a round trip of 0 the next sample counts
      in full, where the mean is below 14. */
  lemma ZeroForgets()
    ensures Samples(Rtt(1, 0, 201, 0), [0, 100]).srtt == 100 && Mean(1.0, [0, 100]) < 14.0
  {
    assert [0, 100][..1] == [0] && [0, 100][..1][..0] == [];
    assert Samples(Rtt(1, 0, 201, 0), [0]) == Sample(Rtt(1, 0, 201, 0), 0);
    assert Mean(1.0, [0]) == 0.875 * 1.0 + 0.125 * 0.0;
  }

  /** What is left of a distance after n samples, each of which takes an eighth. */
  ghost function Left(distance: real, n: nat): real {
    if n == 0 then distance else 0.875 * Left(distance, n - 1)
  }

  /** When the round trip has changed to r, the mean nears it by an eighth a sample. */
  lemma {:induction false} MeanNears(first: real, r: int, n: nat)
    ensures Mean(first, Repeat(r, n)) - r as real == Left(first - r as real, n)
  {
    if n == 0 {
    } else {
      MeanNears(first, r, n - 1);
      assert Repeat(r, n)[..n - 1] == Repeat(r, n - 1);
    }
  }

  /** So the estimate of a path whose round trip has changed to r is off by what is left
      of the change, and by less than seven milliseconds. */
  lemma EstimateNears(t: Rtt, r: int, n: nat)
    requires t.srtt > 0 && r > 0
    ensures var left := Left(t.srtt as real - r as real, n);
            left - 7.0 < Samples(t, Repeat(r, n)).srtt as real - r as real <= left
  {
    PositiveIsMean(t, Repeat(r, n));
    MeanNears(t.srtt as real, r, n);
  }

  // --------------------------------------------------------------- giving up

  const RTO_LIMIT: int := 60000

  /** How many expiries tcp_retransmission_timeout takes, the last of which gives up. */
  function Expiries(rto: int): nat
    requires rto >= 1
    decreases RTO_LIMIT - rto
  {
    if rto > RTO_LIMIT then 1 else 1 + Expiries(2 * rto)
  }

  /** The time until then. */
  function TimeToGiveUp(rto: int): int
    requires rto >= 1
    decreases RTO_LIMIT - rto
  {
    if rto > RTO_LIMIT then rto else rto + TimeToGiveUp(2 * rto)
  }

  /** The timeout after n doublings. */
  function Doubled(rto: int, n: nat): int {
    if n == 0 then rto else 2 * Doubled(rto, n - 1)
  }

  function SumDoubled(rto: int, n: nat): int {
    if n == 0 then 0 else SumDoubled(rto, n - 1) + Doubled(rto, n - 1)
  }

  lemma {:induction false} DoubledDouble(rto: int, n: nat)
    ensures Doubled(2 * rto, n) == Doubled(rto, n + 1)
    ensures SumDoubled(rto, n + 1) == rto + SumDoubled(2 * rto, n)
  {
    if n == 0 {
      assert SumDoubled(rto, 1) == SumDoubled(rto, 0) + Doubled(rto, 0);
    } else {
      DoubledDouble(rto, n - 1);
    }
  }

  /** The time until the connection is given up is that of all the timeouts. */
  lemma {:induction false} TimeIsSum(rto: int)
    requires rto >= 1
    ensures TimeToGiveUp(rto) == SumDoubled(rto, Expiries(rto))
    decreases RTO_LIMIT - rto
  {
    if rto > RTO_LIMIT {
      assert SumDoubled(rto, 1) == SumDoubled(rto, 0) + Doubled(rto, 0);
    } else {
      TimeIsSum(2 * rto);
      DoubledDouble(rto, Expiries(2 * rto));
    }
  }

  function Pow2(n: nat): (p: nat)
    ensures p > 0
  {
    if n == 0 then 1 else 2 * Pow2(n - 1)
  }

  lemma {:induction false} Pow2Double(rto: int, n: nat)
    ensures (2 * rto) * Pow2(n) == rto * Pow2(n + 1)
  {
    assert rto * Pow2(n + 1) == rto * (2 * Pow2(n));
  }

  lemma {:induction false} Doublings(rto: int, n: nat)
    requires rto >= 1 && rto * Pow2(n) > RTO_LIMIT
    ensures Expiries(rto) <= n + 1
    decreases n
  {
    if n == 0 || rto > RTO_LIMIT {
    } else {
      Pow2Double(rto, n - 1);
      Doublings(2 * rto, n - 1);
    }
  }

  /** From any timeout of at least a millisecond the connection is given up at the
      seventeenth expiry at the latest, and from one of at most two minutes within
      four minutes. */
  lemma {:induction false} GivesUpInTime(rto: int)
    requires rto >= 1
    ensures Expiries(rto) <= 17
    ensures rto <= 120000 ==> TimeToGiveUp(rto) <= 240000 - rto
    decreases RTO_LIMIT - rto
  {
    SixteenDoublings(rto);
    Doublings(rto, 16);
    if rto > RTO_LIMIT {
    } else {
      GivesUpInTime(2 * rto);
    }
  }

  lemma SixteenDoublings(rto: int)
    requires rto >= 1
    ensures rto * Pow2(16) > RTO_LIMIT
  {
    assert Pow2(4) == 16;
    assert Pow2(8) == 16 * Pow2(4);
    assert Pow2(12) == 16 * Pow2(8);
    assert Pow2(16) == 16 * Pow2(12) == 65536;
  }
}
