// The generator visits all 2^31 - 2 proper states before it repeats one.

/** Divisors of a product of listed primes. */
module Divisors {
  import opened Arith

  ghost predicate IsPrime(p: int) {
    p > 1 && forall k {:trigger p % k} :: 1 < k < p ==> p % k != 0
  }

  /** Euclid's lemma: a prime that divides r * x but not r (0 < r < p) divides x. */
  lemma {:induction false} EuclidSmall(p: int, r: int, x: int)
    requires IsPrime(p) && 0 < r < p && (r * x) % p == 0
    ensures x % p == 0
    decreases r
  {
    if r > 1 {
      var s, q, k := p % r, p / r, (r * x) / p;
      assert s != 0;
      assert s * x == p * x - q * (r * x) by {
        assert p == q * r + s;
        assert p * x == q * r * x + s * x;
      }
      assert s * x == p * (x - q * k) by {
        assert r * x == k * p;
        assert q * (k * p) == p * (q * k);
        assert p * (x - q * k) == p * x - p * (q * k);
      }
      MultipleDivides(p, x - q * k);
      EuclidSmall(p, s, x);
    }
  }

  /** If g * y == p * n and p does not divide y, then p can be cancelled out of g. */
  lemma CancelPrime(p: int, g: int, y: int, n: int) returns (g': int)
    requires IsPrime(p) && g > 0 && y > 0 && g * y == p * n
    requires y % p != 0
    ensures g' > 0 && g == p * g' && g' * y == n
  {
    var q, r := y / p, y % p;
    assert r * g == p * (n - q * g) by {
      assert y * g == q * p * g + r * g;
      assert q * p * g == p * (q * g);
    }
    MultipleDivides(p, n - q * g);
    EuclidSmall(p, r, g);
    g' := g / p;
    assert g == p * g';
    assert p * (g' * y) == p * n;
    assert g' * y == n by {
      MultipleDivides(p, g' * y);
      MultipleDivides(p, n);
    }
  }

  /** A number with no divisor up to 18 and below 19 * 19 is prime. */
  lemma SmallPrime(p: int)
    requires 1 < p < 361
    requires forall k {:trigger p % k} :: 1 < k < 19 && k < p ==> p % k != 0
    ensures IsPrime(p)
  {
    forall k {:trigger p % k} | 1 < k < p
      ensures p % k != 0
    {
      if p % k == 0 && k >= 19 {
        var c := p / k;
        assert c >= 19 ==> c * k >= 19 * 19;
        assert c <= 1 ==> c * k <= k;
        assert c < p by {
          assert c * k > c;
        }
        MultipleDivides(c, k);
        assert false;
      }
    }
  }

  lemma ListedPrimes()
    ensures IsPrime(2) && IsPrime(3) && IsPrime(7) && IsPrime(11) && IsPrime(31)
    ensures IsPrime(151) && IsPrime(331)
  {
    SmallPrime(2);
    SmallPrime(3);
    SmallPrime(7);
    SmallPrime(11);
    SmallPrime(31);
    SmallPrime(151);
    SmallPrime(331);
  }
}

module LongRandPeriod {
  import opened MersenneMod
  import opened LongRand
  import opened Arith
  import opened Divisors

  // ----- a certificate for powers of the step -----

  /** If m calls multiply by v and n calls by w, then m + n calls multiply by r. */
  lemma Times(m: nat, v: int, n: nat, w: int, r: int)
    requires Acts(m, v) && Acts(n, w)
    requires v * w % 0x7FFF_FFFF == r
    ensures Acts(m + n, r)
  {
    forall z | Proper(z)
      ensures Run(m + n, z) == r * z % M
    {
      RunSum(m, n, z);
      RunIsProper(n, z);
      Associate(v, w, z);
      ProductLeft(v * w, z);
    }
  }

  lemma OneCall()
    ensures Acts(1, 16807)
  {
    forall z | Proper(z)
      ensures Run(1, z) == A * z % M
    {
      assert Run(0, z) == z;
    }
  }

  lemma PowerX()
    ensures Acts(1549411, 942143378)
  {
    OneCall();
    Times(1, 16807, 1, 16807, 282475249);
    Times(2, 282475249, 2, 282475249, 984943658);
    Times(4, 984943658, 1, 16807, 1144108930);
    Times(5, 1144108930, 5, 1144108930, 2007237709);
    Times(10, 2007237709, 1, 16807, 823564440);
    Times(11, 823564440, 11, 823564440, 1474833169);
    Times(22, 1474833169, 1, 16807, 1264817709);
    Times(23, 1264817709, 23, 1264817709, 156091745);
    Times(46, 156091745, 1, 16807, 1356425228);
    Times(47, 1356425228, 47, 1356425228, 1102246882);
    Times(94, 1102246882, 94, 1102246882, 1951894885);
    Times(188, 1951894885, 1, 16807, 537140623);
    Times(189, 537140623, 189, 537140623, 937673930);
    Times(378, 937673930, 378, 937673930, 2045329870);
    Times(756, 2045329870, 756, 2045329870, 167963456);
    Times(1512, 167963456, 1, 16807, 1168292834);
    Times(1513, 1168292834, 1513, 1168292834, 1305359608);
    Times(3026, 1305359608, 3026, 1305359608, 694228013);
    Times(6052, 694228013, 6052, 694228013, 1125223030);
    Times(12104, 1125223030, 12104, 1125223030, 364105151);
    Times(24208, 364105151, 1, 16807, 1334362554);
    Times(24209, 1334362554, 24209, 1334362554, 1705335906);
    Times(48418, 1705335906, 1, 16807, 1263819280);
    Times(48419, 1263819280, 48419, 1263819280, 1183076897);
    Times(96838, 1183076897, 96838, 1183076897, 2134534878);
    Times(193676, 2134534878, 193676, 2134534878, 1537908542);
    Times(387352, 1537908542, 387352, 1537908542, 923504864);
    Times(774704, 923504864, 1, 16807, 1481932379);
    Times(774705, 1481932379, 774705, 1481932379, 1997150684);
    Times(1549410, 1997150684, 1, 16807, 942143378);
  }

  lemma PowersOfX()
    requires Acts(1549411, 942143378)
    ensures Acts(1073741823, 2147483646)
    ensures Acts(715827882, 634005911)
    ensures Acts(306783378, 1600955193)
    ensures Acts(195225786, 298192073)
    ensures Acts(2147483646, 1)
  {
    Times(1549411, 942143378, 1549411, 942143378, 1451889758);
    Times(3098822, 1451889758, 3098822, 1451889758, 1501098710);
    Times(6197644, 1501098710, 6197644, 1501098710, 428076767);
    Times(12395288, 428076767, 12395288, 428076767, 1781757836);
    Times(24790576, 1781757836, 24790576, 1781757836, 565757762);
    Times(49581152, 565757762, 1549411, 942143378, 1568387158);
    Times(51130563, 1568387158, 51130563, 1568387158, 744525991);
    Times(102261126, 744525991, 51130563, 1568387158, 394883873);
    Times(153391689, 394883873, 153391689, 394883873, 1600955193);
    Times(306783378, 1600955193, 51130563, 1568387158, 634005912);
    Times(357913941, 634005912, 357913941, 634005912, 634005911);
    Times(715827882, 634005911, 357913941, 634005912, 2147483646);
    Times(1073741823, 2147483646, 1073741823, 2147483646, 1);
    Times(49581152, 565757762, 24790576, 1781757836, 2009938488);
    Times(74371728, 2009938488, 12395288, 428076767, 40851395);
    Times(86767016, 40851395, 6197644, 1501098710, 975530760);
    Times(92964660, 975530760, 3098822, 1451889758, 1337576049);
    Times(96063482, 1337576049, 1549411, 942143378, 1819912402);
    Times(97612893, 1819912402, 97612893, 1819912402, 298192073);
  }

  lemma PowerY()
    ensures Acts(1386, 1179617774)
  {
    OneCall();
    Times(1, 16807, 1, 16807, 282475249);
    Times(2, 282475249, 2, 282475249, 984943658);
    Times(4, 984943658, 1, 16807, 1144108930);
    Times(5, 1144108930, 5, 1144108930, 2007237709);
    Times(10, 2007237709, 10, 2007237709, 143542612);
    Times(20, 143542612, 1, 16807, 896544303);
    Times(21, 896544303, 21, 896544303, 2110010672);
    Times(42, 2110010672, 1, 16807, 1551901393);
    Times(43, 1551901393, 43, 1551901393, 1351934195);
    Times(86, 1351934195, 86, 1351934195, 1901915394);
    Times(172, 1901915394, 1, 16807, 197941363);
    Times(173, 197941363, 173, 197941363, 2028841238);
    Times(346, 2028841238, 346, 2028841238, 346645555);
    Times(692, 346645555, 1, 16807, 2096192221);
    Times(693, 2096192221, 693, 2096192221, 1179617774);
  }

  lemma PowersOfY31()
    requires Acts(1386, 1179617774)
    ensures Acts(6487866, 759513457)
    ensures Acts(14221746, 1013763951)
  {
    Times(1386, 1179617774, 1386, 1179617774, 970181005);
    Times(2772, 970181005, 1386, 1179617774, 2047383381);
    Times(4158, 2047383381, 4158, 2047383381, 1193132871);
    Times(8316, 1193132871, 1386, 1179617774, 1596326605);
    Times(9702, 1596326605, 9702, 1596326605, 1100894107);
    Times(19404, 1100894107, 1386, 1179617774, 1353207565);
    Times(20790, 1353207565, 20790, 1353207565, 743196361);
    Times(41580, 743196361, 1386, 1179617774, 1730649443);
    Times(42966, 1730649443, 42966, 1730649443, 1376674263);
    Times(85932, 1376674263, 85932, 1376674263, 1233326474);
    Times(171864, 1233326474, 171864, 1233326474, 1386718363);
    Times(343728, 1386718363, 42966, 1730649443, 2046898715);
    Times(386694, 2046898715, 386694, 2046898715, 508483168);
    Times(773388, 508483168, 773388, 508483168, 1563543819);
    Times(1546776, 1563543819, 42966, 1730649443, 1800693194);
    Times(1589742, 1800693194, 1589742, 1800693194, 721966392);
    Times(3179484, 721966392, 42966, 1730649443, 1722962606);
    Times(3222450, 1722962606, 3222450, 1722962606, 252779128);
    Times(6444900, 252779128, 42966, 1730649443, 759513457);
    Times(42966, 1730649443, 42966, 1730649443, 1376674263);
    Times(85932, 1376674263, 85932, 1376674263, 1233326474);
    Times(171864, 1233326474, 42966, 1730649443, 1018536654);
    Times(214830, 1018536654, 214830, 1018536654, 1268820004);
    Times(429660, 1268820004, 429660, 1268820004, 1612600255);
    Times(859320, 1612600255, 859320, 1612600255, 1146547535);
    Times(1718640, 1146547535, 42966, 1730649443, 1682133510);
    Times(1761606, 1682133510, 1761606, 1682133510, 133508022);
    Times(3523212, 133508022, 3523212, 133508022, 642862021);
    Times(7046424, 642862021, 42966, 1730649443, 432825610);
    Times(7089390, 432825610, 7089390, 432825610, 688128574);
    Times(14178780, 688128574, 42966, 1730649443, 1013763951);
  }

  lemma PowersOfY151()
    requires Acts(1386, 1179617774)
    ensures Acts(69273666, 16384)
  {
    Times(1386, 1179617774, 1386, 1179617774, 970181005);
    Times(2772, 970181005, 2772, 970181005, 1094497686);
    Times(5544, 1094497686, 5544, 1094497686, 1818048795);
    Times(11088, 1818048795, 1386, 1179617774, 1595268003);
    Times(12474, 1595268003, 12474, 1595268003, 97566603);
    Times(24948, 97566603, 24948, 97566603, 1064589535);
    Times(49896, 1064589535, 1386, 1179617774, 1264977179);
    Times(51282, 1264977179, 51282, 1264977179, 268955685);
    Times(102564, 268955685, 1386, 1179617774, 1763597542);
    Times(103950, 1763597542, 103950, 1763597542, 1777464897);
    Times(207900, 1777464897, 1386, 1179617774, 2046615961);
    Times(209286, 2046615961, 209286, 2046615961, 38296465);
    Times(418572, 38296465, 418572, 38296465, 1717228516);
    Times(837144, 1717228516, 209286, 2046615961, 981473993);
    Times(1046430, 981473993, 1046430, 981473993, 2055866956);
    Times(2092860, 2055866956, 2092860, 2055866956, 2141830927);
    Times(4185720, 2141830927, 4185720, 2141830927, 834214687);
    Times(8371440, 834214687, 209286, 2046615961, 1902029882);
    Times(8580726, 1902029882, 8580726, 1902029882, 115305281);
    Times(17161452, 115305281, 17161452, 115305281, 344710791);
    Times(34322904, 344710791, 209286, 2046615961, 631600543);
    Times(34532190, 631600543, 34532190, 631600543, 1444099746);
    Times(69064380, 1444099746, 209286, 2046615961, 16384);
  }

  // ----- the order of the step -----

  lemma NotFixed(n: nat, v: int)
    requires Acts(n, v) && 1 < v < M
    ensures !Fixes(n)
  {
    assert Proper(1) && Run(n, 1) == v * 1 % M;
  }

  lemma Fixed(n: nat)
    requires Acts(n, 1)
    ensures Fixes(n)
  {
    forall z | Proper(z)
      ensures Run(n, z) == z
    {
      assert Run(n, z) == 1 * z % M;
    }
  }

  lemma PeriodFixes(period: nat)
    requires period == 2147483646
    ensures Fixes(period)
  {
    PowerX();
    PowersOfX();
    Fixed(period);
  }

  /** If a and b calls fix every state, so do g calls for their greatest common divisor g. */
  lemma {:induction false} CommonDivisorFixes(a: nat, b: nat) returns (g: nat, x: nat, y: nat)
    requires Fixes(a) && Fixes(b) && a > 0
    ensures g > 0 && a == g * x && b == g * y && Fixes(g)
    decreases b
  {
    if b == 0 {
      g, x, y := a, 1, 0;
    } else {
      RemainderFixes(a, b);
      var x', y';
      g, x', y' := CommonDivisorFixes(b, a % b);
      x, y := a / b * x' + y', x';
      assert a == a / b * (g * x') + g * y';
      assert g * x == a / b * (g * x') + g * y' by {
        assert g * (a / b * x' + y') == g * (a / b * x') + g * y';
        assert g * (a / b * x') == a / b * (g * x');
      }
    }
  }

  lemma {:induction false} MultipleFixes(g: nat, k: nat)
    requires Fixes(g)
    ensures Fixes(g * k)
  {
    if k == 0 {
      assert g * k == 0;
    } else {
      MultipleFixes(g, k - 1);
      assert g * k == g + g * (k - 1) && g * (k - 1) >= 0;
      forall z | Proper(z)
        ensures Run(g * k, z) == z
      {
        RunSum(g, g * (k - 1), z);
      }
    }
  }

  lemma RemainderFixes(a: nat, b: nat)
    requires Fixes(a) && Fixes(b) && b > 0
    ensures Fixes(a % b)
  {
    var q := a / b;
    MultipleFixes(b, q);
    assert a == b * q + a % b && b * q >= 0;
    forall z | Proper(z)
      ensures Run(a % b, z) == z
    {
      RunIsProper(a % b, z);
      RunSum(b * q, a % b, z);
      assert Run(b * q, Run(a % b, z)) == Run(a % b, z);
    }
  }

  /** A proper divisor of 2^31 - 2 = 2 * 3 * 3 * 7 * 11 * 31 * 151 * 331 divides one of
      the seven quotients by a prime. */
  lemma PrimeQuotient(g: nat, y: nat) returns (q: nat)
    requires g > 0 && y > 1 && g * y == 2147483646
    ensures q in {2, 3, 7, 11, 31, 151, 331} && y % q == 0
  {
    ListedPrimes();
    if q :| q in {2, 3, 7, 11, 31, 151, 331} && y % q == 0 {
      return q;
    }
    assert forall q :: q in {2, 3, 7, 11, 31, 151, 331} ==> y % q != 0;
    var h := CancelPrime(2, g, y, 1073741823);
    h := CancelPrime(3, h, y, 357913941);
    h := CancelPrime(3, h, y, 119304647);
    h := CancelPrime(7, h, y, 17043521);
    h := CancelPrime(11, h, y, 1549411);
    h := CancelPrime(31, h, y, 49981);
    h := CancelPrime(151, h, y, 331);
    h := CancelPrime(331, h, y, 1);
    assert false;
  }

  lemma QuotientNotFixedX(e: nat, q: nat)
    requires (q == 2 || q == 3 || q == 7 || q == 11) && e * q == 2147483646
    ensures !Fixes(e)
  {
    PowerX();
    PowersOfX();
    NotFixed(e, if q == 2 then 2147483646 else if q == 3 then 634005911 else if q == 7 then 1600955193 else 298192073);
  }

  lemma QuotientNotFixedY(e: nat, q: nat)
    requires (q == 31 || q == 151 || q == 331) && e * q == 2147483646
    ensures !Fixes(e)
  {
    PowerY();
    if q == 31 {
      PowersOfY151();
      NotFixed(e, 16384);
    } else {
      PowersOfY31();
      NotFixed(e, if q == 151 then 1013763951 else 759513457);
    }
  }

  lemma QuotientNotFixed(e: nat, q: nat)
    requires q in {2, 3, 7, 11, 31, 151, 331} && e * q == 2147483646
    ensures !Fixes(e)
  {
    if q <= 11 {
      QuotientNotFixedX(e, q);
    } else {
      QuotientNotFixedY(e, q);
    }
  }

  /** The greatest common divisor of the period and a return time is the period. */
  lemma DivisorIsPeriod(g: nat, y: nat)
    requires g > 0 && g * y == 2147483646 && Fixes(g)
    ensures y == 1
  {
    if y > 1 {
      var q := PrimeQuotient(g, y);
      MultipleFixes(g, y / q);
      assert g * (y / q) * q == 2147483646 by {
        assert y == y / q * q;
      }
      QuotientNotFixed(g * (y / q), q);
      assert false;
    }
  }

  /** n calls fix every proper state exactly when 2^31 - 2 divides n. */
  lemma Order(n: nat, period: nat)
    requires period == M - 1
    ensures Fixes(n) <==> n % period == 0
  {
    PeriodFixes(period);
    if n % period == 0 {
      MultipleFixes(period, n / period);
    } else if Fixes(n) {
      var g, x, y := CommonDivisorFixes(n, period);
      DivisorIsPeriod(g, y);
      MultipleDivides(g, x);
      assert false;
    }
  }

  // ----- every proper state is on one cycle -----

  /** The states met by the first n calls from seed 1, the seed itself included. */
  ghost function Visited(n: nat): set<int> {
    if n == 0 then {} else Visited(n - 1) + {Run(n - 1, 1)}
  }

  lemma {:induction false} VisitedAt(n: nat, z: int) returns (i: nat)
    requires z in Visited(n)
    ensures i < n && z == Run(i, 1)
  {
    if z == Run(n - 1, 1) {
      i := n - 1;
    } else {
      i := VisitedAt(n - 1, z);
    }
  }

  lemma NoEarlyRepeat(i: nat, j: nat)
    requires i < j < M - 1
    ensures Run(i, 1) != Run(j, 1)
  {
    if Run(i, 1) == Run(j, 1) {
      RunSum(i, j - i, 1);
      RunIsProper(j - i, 1);
      RunInjective(i, Run(j - i, 1), 1);
      RunActs(j - i);
      Fixed(j - i);
      Order(j - i, M - 1);
      assert false;
    }
  }

  lemma {:induction false} VisitedCount(n: nat)
    requires n <= M - 1
    ensures |Visited(n)| == n
    ensures forall z :: z in Visited(n) ==> Proper(z)
  {
    if n > 0 {
      VisitedCount(n - 1);
      RunIsProper(n - 1, 1);
      if Run(n - 1, 1) in Visited(n - 1) {
        var i := VisitedAt(n - 1, Run(n - 1, 1));
        NoEarlyRepeat(i, n - 1);
        assert false;
      }
    }
  }

  ghost function UpTo(n: nat): set<int> {
    set z {:trigger z in UpTo(n)} | 1 <= z <= n
  }

  lemma {:induction false} UpToCount(n: nat)
    ensures |UpTo(n)| == n
  {
    if n > 0 {
      UpToCount(n - 1);
      assert UpTo(n) == UpTo(n - 1) + {n};
    } else {
      assert UpTo(0) == {};
    }
  }

  /** Every proper state is met from seed 1 (so 16807 is a primitive root modulo M). */
  lemma ReachedFromOne(z: int) returns (i: nat)
    requires Proper(z)
    ensures i < M - 1 && Run(i, 1) == z
  {
    var n: nat := M - 1;
    VisitedCount(n);
    UpToCount(n);
    assert Visited(n) <= UpTo(n);
    assert |UpTo(n) - Visited(n)| == 0;
    assert z in UpTo(n);
    assert z in Visited(n);
    i := VisitedAt(n, z);
  }

  /** Main result: from any proper seed, the state first comes back after 2^31 - 2 calls. */
  lemma FullPeriod(z: int, n: nat)
    requires Proper(z)
    ensures Run(n, z) == z <==> n % (M - 1) == 0
  {
    Order(n, M - 1);
    if Run(n, z) == z {
      var j := ReachedFromOne(z);
      RunSum(n, j, 1);
      RunSum(j, n, 1);
      RunIsProper(n, 1);
      RunInjective(j, Run(n, 1), 1);
      RunActs(n);
      Fixed(n);
    }
  }

  /** ... and every other proper state is met on the way. */
  lemma EveryStateReached(y: int, z: int) returns (k: nat)
    requires Proper(y) && Proper(z)
    ensures k < M - 1 && Run(k, y) == z
  {
    var a := ReachedFromOne(y);
    var b := ReachedFromOne(z);
    if a <= b {
      k := b - a;
    } else {
      k := M - 1 - a + b;
      PeriodFixes(M - 1);
      RunSum(b, M - 1, 1);
      assert Run(M - 1, 1) == 1 by {
        assert Proper(1);
      }
    }
    RunSum(k, a, 1);
  }
}
