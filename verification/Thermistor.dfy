/** The hinted thermistor lookup of earbud/src/peripherals/thermistor.c: a search that starts at the previous
    temperature and goes either way agrees with a plain scan of the table. */
module Thermistor {

  /** Voltages by temperature, and the temperature of the first one. */
  datatype Table = Table(mv: seq<nat>, minimum: int)
  {
    predicate Valid() {
      mv != []
    }

    function Maximum(): int {
      minimum + |mv| - 1
    }
  }

  ghost predicate NonIncreasing(s: seq<nat>) {
    forall i, j | 0 <= i < j < |s| :: s[i] >= s[j]
  }

  /** Each entry is above the next one. */
  ghost predicate Falls(s: seq<nat>) {
    forall i | 0 <= i < |s| - 1 :: s[i] > s[i + 1]
  }

  ghost predicate Decreasing(s: seq<nat>) {
    forall i, j | 0 <= i < j < |s| :: s[i] > s[j]
  }

  /** temperatureClamp. */
  function Clamp(t: Table, temperature: int): (r: int)
    requires t.Valid()
    ensures t.minimum <= r <= t.Maximum()
    ensures t.minimum <= temperature <= t.Maximum() ==> r == temperature
  {
    var low := if temperature < t.Maximum() then temperature else t.Maximum();
    if low > t.minimum then low else t.minimum
  }

  /** appThermistorDegreesCelsiusToMillivolts. */
  function ToMillivolts(t: Table, temperature: int): nat
    requires t.Valid()
  {
    t.mv[Clamp(t, temperature) - t.minimum]
  }

  /** The first entry not above the reading, or the last entry. */
  function Scan(mv: seq<nat>, reading: nat): (k: nat)
    requires mv != []
    ensures k < |mv| && (k < |mv| - 1 ==> mv[k] <= reading)
    ensures forall i | 0 <= i < k :: mv[i] > reading
  {
    if mv[0] <= reading || |mv| == 1 then 0 else 1 + Scan(mv[1..], reading)
  }

  lemma ScanIs(mv: seq<nat>, reading: nat, k: nat)
    requires k < |mv| && (k < |mv| - 1 ==> mv[k] <= reading) && forall i | 0 <= i < k :: mv[i] > reading
    ensures Scan(mv, reading) == k
  {
    var s := Scan(mv, reading);
    var found, expected := mv[s], mv[k];
    if s < k {
      assert false;
    } else if k < s {
      assert false;
    }
  }

  lemma AtMost(mv: seq<nat>, reading: nat, j: nat)
    requires j < |mv| && mv[j] <= reading
    ensures Scan(mv, reading) <= j
  {
    if j < Scan(mv, reading) {
      assert false;
    }
  }

  /** What the hinted search finds from a hint, for any table at all: forwards or backwards. */
  function Forward(mv: seq<nat>, reading: nat, i: nat): (k: nat)
    requires i <= |mv| && mv != []
    ensures k < |mv| && (k < |mv| - 1 ==> mv[k] <= reading && k >= i)
    decreases |mv| - i
  {
    if i == |mv| then |mv| - 1 else if reading >= mv[i] then i else Forward(mv, reading, i + 1)
  }

  function Backward(mv: seq<nat>, reading: nat, i: nat): (k: nat)
    requires i < |mv|
    ensures k <= i
  {
    if i == 0 then 0 else if mv[i] <= reading < mv[i - 1] then i else Backward(mv, reading, i - 1)
  }

  function Hinted(mv: seq<nat>, reading: nat, hint: nat): (k: nat)
    requires hint < |mv|
    ensures k < |mv|
  {
    if reading < mv[hint] then Forward(mv, reading, hint + 1) else Backward(mv, reading, hint)
  }

  /** appThermistorMillivoltsToDegreesCelsius. */
  method ToDegreesCelsius(t: Table, reading: nat, previous: int) returns (celsius: int)
    requires t.Valid()
    ensures celsius == t.minimum + Hinted(t.mv, reading, Clamp(t, previous) - t.minimum)
    ensures NonIncreasing(t.mv) ==> celsius == t.minimum + Scan(t.mv, reading)
  {
    hide Scan;
    var hint: nat := Clamp(t, previous) - t.minimum;
    if NonIncreasing(t.mv) {
      HintIsIrrelevant(t.mv, reading, hint);
    }
    hide NonIncreasing;
    var previousMv := t.mv[hint];
    if reading < previousMv {
      var i := hint + 1;
      while i < |t.mv|
        invariant hint < i <= |t.mv| && Forward(t.mv, reading, hint + 1) == Forward(t.mv, reading, i)
      {
        if reading >= t.mv[i] {
          return t.minimum + i;
        }
        i := i + 1;
      }
      celsius := t.Maximum();
    } else {
      var i := hint;
      while i > 0
        invariant i <= hint && previousMv == t.mv[i] && Backward(t.mv, reading, hint) == Backward(t.mv, reading, i)
      {
        var thisMv := previousMv;
        previousMv := t.mv[i - 1];
        if reading >= thisMv && reading < previousMv {
          return t.minimum + i;
        }
        i := i - 1;
      }
      celsius := t.minimum;
    }
  }

  // ---------------------------------------------------------------- the hint does not matter

  lemma {:induction false} ForwardScans(mv: seq<nat>, reading: nat, i: nat)
    requires mv != [] && i <= |mv| && forall j | 0 <= j < i :: mv[j] > reading
    ensures Forward(mv, reading, i) == Scan(mv, reading)
    decreases |mv| - i
  {
    if i == |mv| {
      ScanIs(mv, reading, |mv| - 1);
    } else if reading >= mv[i] {
      ScanIs(mv, reading, i);
    } else {
      ForwardScans(mv, reading, i + 1);
    }
  }

  lemma {:induction false} BackwardScans(mv: seq<nat>, reading: nat, i: nat)
    requires NonIncreasing(mv) && i < |mv| && mv[i] <= reading
    ensures Backward(mv, reading, i) == Scan(mv, reading)
  {
    if i == 0 {
      ScanIs(mv, reading, 0);
    } else if reading < mv[i - 1] {
      ScanIs(mv, reading, i);
    } else {
      BackwardScans(mv, reading, i - 1);
    }
  }

  lemma HintIsIrrelevant(mv: seq<nat>, reading: nat, hint: nat)
    requires NonIncreasing(mv) && hint < |mv|
    ensures Hinted(mv, reading, hint) == Scan(mv, reading)
  {
    if reading < mv[hint] {
      ForwardScans(mv, reading, hint + 1);
    } else {
      BackwardScans(mv, reading, hint);
    }
  }

  /** Where the table rises, a hint after the rise hides the entry before it. */
  lemma RiseShows(mv: seq<nat>, j: nat)
    requires j + 1 < |mv| && mv[j] < mv[j + 1]
    ensures Hinted(mv, mv[j], j + 1) != Scan(mv, mv[j])
  {
    AtMost(mv, mv[j], j);
  }

  lemma {:induction false} RiseExists(mv: seq<nat>, i: nat, j: nat) returns (k: nat)
    requires i < j < |mv| && mv[i] < mv[j]
    ensures k + 1 < |mv| && mv[k] < mv[k + 1]
    decreases j - i
  {
    if mv[i] < mv[i + 1] {
      k := i;
    } else {
      k := RiseExists(mv, i + 1, j);
    }
  }

  /** The hinted search agrees with the plain scan for every reading and every hint exactly when the table never rises. */
  lemma HintIrrelevantExactly(mv: seq<nat>)
    ensures (forall reading: nat, hint: nat | hint < |mv| :: Hinted(mv, reading, hint) == Scan(mv, reading))
            <==> NonIncreasing(mv)
  {
    if NonIncreasing(mv) {
      forall reading: nat, hint: nat | hint < |mv| ensures Hinted(mv, reading, hint) == Scan(mv, reading) {
        HintIsIrrelevant(mv, reading, hint);
      }
    } else {
      var i, j :| 0 <= i < j < |mv| && mv[i] < mv[j];
      var k := RiseExists(mv, i, j);
      RiseShows(mv, k);
    }
  }

  // ---------------------------------------------------------------- round trip

  lemma FallingComesBack(t: Table, temperature: int)
    requires t.Valid() && Decreasing(t.mv)
    ensures t.minimum + Scan(t.mv, ToMillivolts(t, temperature)) == Clamp(t, temperature)
  {
    hide Scan;
    ScanIs(t.mv, ToMillivolts(t, temperature), Clamp(t, temperature) - t.minimum);
  }

  lemma NotFallingDoesNot(t: Table)
    requires t.Valid() && !Decreasing(t.mv)
    ensures exists temperature: int :: t.minimum + Scan(t.mv, ToMillivolts(t, temperature)) != Clamp(t, temperature)
  {
    hide Scan;
    var i, j :| 0 <= i < j < |t.mv| && t.mv[i] <= t.mv[j];
    var temperature := t.minimum + j;
    assert Clamp(t, temperature) == temperature;
    AtMost(t.mv, t.mv[j], i);
    assert t.minimum + Scan(t.mv, ToMillivolts(t, temperature)) != Clamp(t, temperature);
  }

  /** Converting to millivolts and back gives the clamped temperature, for every temperature, exactly when the table
      strictly falls; every hint may be used then (HintIsIrrelevant). */
  lemma RoundTrip(t: Table)
    requires t.Valid()
    ensures (forall temperature: int :: t.minimum + Scan(t.mv, ToMillivolts(t, temperature)) == Clamp(t, temperature))
            <==> Decreasing(t.mv)
  {
    hide Scan, ToMillivolts, Clamp;
    if Decreasing(t.mv) {
      forall temperature: int ensures t.minimum + Scan(t.mv, ToMillivolts(t, temperature)) == Clamp(t, temperature) {
        FallingComesBack(t, temperature);
      }
    } else {
      NotFallingDoesNot(t);
    }
  }

  /** A higher voltage never means a higher temperature, in any table. */
  lemma Antitone(mv: seq<nat>, low: nat, high: nat)
    requires mv != [] && low <= high
    ensures Scan(mv, high) <= Scan(mv, low)
  {
    if Scan(mv, low) < |mv| - 1 {
      AtMost(mv, high, Scan(mv, low));
    }
  }

  // ---------------------------------------------------------------- the tables of the repository

  lemma {:induction false} FallsDown(s: seq<nat>, i: nat, j: nat)
    requires Falls(s) && i < j < |s|
    ensures s[i] > s[j]
    decreases j - i
  {
    if i + 1 < j {
      FallsDown(s, i + 1, j);
    }
  }

  lemma FallsDecreases(s: seq<nat>)
    requires Falls(s)
    ensures Decreasing(s)
  {
    forall i, j | 0 <= i < j < |s| ensures s[i] > s[j] {
      FallsDown(s, i, j);
    }
  }

  /** A falling stretch of a table, with its ends. */
  ghost predicate Stretch(s: seq<nat>, length: nat, first: nat, last: nat) {
    length > 0 && |s| == length && s[0] == first && s[length - 1] == last && Falls(s)
  }

  lemma Join(a: seq<nat>, b: seq<nat>, m: nat, first: nat, x: nat, n: nat, y: nat, last: nat)
    requires Stretch(a, m, first, x) && Stretch(b, n, y, last) && x > y
    ensures Stretch(a + b, m + n, first, last)
  {
  }

  // earbud/src/peripherals/thermistor_lp4434401s3.h and thermistor_lp4549652p3m.h, from -40 to 85 degrees.

  const LP4_COLD: seq<nat> :=
    [1730, 1725, 1721, 1716, 1711, 1706, 1700, 1695, 1689, 1682, 1676, 1669, 1662, 1654] +
    [1647, 1639, 1630, 1622, 1613, 1603, 1594, 1584, 1574, 1563, 1552, 1541, 1529, 1517] +
    [1505, 1493, 1480, 1467, 1453, 1439, 1425, 1411, 1396, 1381, 1366, 1350, 1334, 1318]

  const LP4_MILD: seq<nat> :=
    [1302, 1286, 1269, 1252, 1235, 1218, 1201, 1183, 1166, 1148, 1131, 1113, 1095, 1077] +
    [1059, 1041, 1023, 1005, 988, 970, 952, 934, 917, 900, 882, 865, 848, 831] +
    [814, 798, 781, 765, 749, 733, 718, 702, 687, 672, 657, 643, 629, 614]

  const LP4_HOT: seq<nat> :=
    [601, 587, 574, 561, 548, 535, 523, 511, 499, 487, 476, 465, 454, 443] +
    [433, 423, 413, 403, 394, 384, 375, 366, 358, 349, 341, 333, 325, 317] +
    [310, 302, 295, 288, 282, 275, 269, 262, 256, 250, 244, 239, 233, 228]

  const LP4: seq<nat> := LP4_COLD + LP4_MILD + LP4_HOT

  lemma Lp4Cold()
    ensures Stretch(LP4_COLD, 42, 1730, 1318)
  {
    var r0: seq<nat> := [1730, 1725, 1721, 1716, 1711, 1706, 1700, 1695, 1689, 1682, 1676, 1669, 1662, 1654];
    var r1: seq<nat> := [1647, 1639, 1630, 1622, 1613, 1603, 1594, 1584, 1574, 1563, 1552, 1541, 1529, 1517];
    var r2: seq<nat> := [1505, 1493, 1480, 1467, 1453, 1439, 1425, 1411, 1396, 1381, 1366, 1350, 1334, 1318];
    Join(r0, r1, 14, 1730, 1654, 14, 1647, 1517);
    Join(r0 + r1, r2, 28, 1730, 1517, 14, 1505, 1318);
  }

  lemma Lp4Mild()
    ensures Stretch(LP4_MILD, 42, 1302, 614)
  {
    var r0: seq<nat> := [1302, 1286, 1269, 1252, 1235, 1218, 1201, 1183, 1166, 1148, 1131, 1113, 1095, 1077];
    var r1: seq<nat> := [1059, 1041, 1023, 1005, 988, 970, 952, 934, 917, 900, 882, 865, 848, 831];
    var r2: seq<nat> := [814, 798, 781, 765, 749, 733, 718, 702, 687, 672, 657, 643, 629, 614];
    Join(r0, r1, 14, 1302, 1077, 14, 1059, 831);
    Join(r0 + r1, r2, 28, 1302, 831, 14, 814, 614);
  }

  lemma Lp4Hot()
    ensures Stretch(LP4_HOT, 42, 601, 228)
  {
    var r0: seq<nat> := [601, 587, 574, 561, 548, 535, 523, 511, 499, 487, 476, 465, 454, 443];
    var r1: seq<nat> := [433, 423, 413, 403, 394, 384, 375, 366, 358, 349, 341, 333, 325, 317];
    var r2: seq<nat> := [310, 302, 295, 288, 282, 275, 269, 262, 256, 250, 244, 239, 233, 228];
    Join(r0, r1, 14, 601, 443, 14, 433, 317);
    Join(r0 + r1, r2, 28, 601, 317, 14, 310, 228);
  }

  lemma Lp4Falls()
    ensures Stretch(LP4, 126, 1730, 228)
  {
    hide Falls;
    Lp4Cold();
    Lp4Mild();
    Lp4Hot();
    Join(LP4_COLD, LP4_MILD, 42, 1730, 1318, 42, 1302, 614);
    Join(LP4_COLD + LP4_MILD, LP4_HOT, 84, 1730, 614, 42, 601, 228);
  }

  // earbud/src/peripherals/thermistor_ncp15xh103.h, from -40 to 85 degrees.

  const NCP15_COLD: seq<nat> :=
    [1726, 1722, 1717, 1712, 1707, 1702, 1696, 1690, 1684, 1678, 1671, 1664, 1657, 1649] +
    [1641, 1633, 1625, 1616, 1607, 1597, 1588, 1578, 1567, 1557, 1546, 1535, 1523, 1511] +
    [1499, 1486, 1473, 1460, 1447, 1433, 1419, 1404, 1390, 1375, 1360, 1344, 1329, 1313]

  const NCP15_MILD: seq<nat> :=
    [1297, 1280, 1264, 1247, 1230, 1214, 1196, 1179, 1162, 1145, 1127, 1109, 1092, 1074] +
    [1057, 1039, 1021, 1004, 986, 969, 951, 934, 917, 900, 882, 866, 849, 832] +
    [816, 799, 783, 767, 751, 736, 720, 705, 690, 676, 661, 647, 633, 619]

  const NCP15_HOT: seq<nat> :=
    [605, 592, 579, 566, 553, 541, 528, 516, 505, 493, 482, 471, 460, 449] +
    [439, 429, 419, 409, 400, 391, 382, 373, 364, 356, 347, 339, 331, 324] +
    [316, 309, 302, 295, 288, 281, 275, 269, 262, 256, 251, 245, 239, 234]

  const NCP15: seq<nat> := NCP15_COLD + NCP15_MILD + NCP15_HOT

  lemma Ncp15Cold()
    ensures Stretch(NCP15_COLD, 42, 1726, 1313)
  {
    var r0: seq<nat> := [1726, 1722, 1717, 1712, 1707, 1702, 1696, 1690, 1684, 1678, 1671, 1664, 1657, 1649];
    var r1: seq<nat> := [1641, 1633, 1625, 1616, 1607, 1597, 1588, 1578, 1567, 1557, 1546, 1535, 1523, 1511];
    var r2: seq<nat> := [1499, 1486, 1473, 1460, 1447, 1433, 1419, 1404, 1390, 1375, 1360, 1344, 1329, 1313];
    Join(r0, r1, 14, 1726, 1649, 14, 1641, 1511);
    Join(r0 + r1, r2, 28, 1726, 1511, 14, 1499, 1313);
  }

  lemma Ncp15Mild()
    ensures Stretch(NCP15_MILD, 42, 1297, 619)
  {
    var r0: seq<nat> := [1297, 1280, 1264, 1247, 1230, 1214, 1196, 1179, 1162, 1145, 1127, 1109, 1092, 1074];
    var r1: seq<nat> := [1057, 1039, 1021, 1004, 986, 969, 951, 934, 917, 900, 882, 866, 849, 832];
    var r2: seq<nat> := [816, 799, 783, 767, 751, 736, 720, 705, 690, 676, 661, 647, 633, 619];
    Join(r0, r1, 14, 1297, 1074, 14, 1057, 832);
    Join(r0 + r1, r2, 28, 1297, 832, 14, 816, 619);
  }

  lemma Ncp15Hot()
    ensures Stretch(NCP15_HOT, 42, 605, 234)
  {
    var r0: seq<nat> := [605, 592, 579, 566, 553, 541, 528, 516, 505, 493, 482, 471, 460, 449];
    var r1: seq<nat> := [439, 429, 419, 409, 400, 391, 382, 373, 364, 356, 347, 339, 331, 324];
    var r2: seq<nat> := [316, 309, 302, 295, 288, 281, 275, 269, 262, 256, 251, 245, 239, 234];
    Join(r0, r1, 14, 605, 449, 14, 439, 324);
    Join(r0 + r1, r2, 28, 605, 324, 14, 316, 234);
  }

  lemma Ncp15Falls()
    ensures Stretch(NCP15, 126, 1726, 234)
  {
    hide Falls;
    Ncp15Cold();
    Ncp15Mild();
    Ncp15Hot();
    Join(NCP15_COLD, NCP15_MILD, 42, 1726, 1313, 42, 1297, 619);
    Join(NCP15_COLD + NCP15_MILD, NCP15_HOT, 84, 1726, 619, 42, 605, 234);
  }

  /** With the tables of the repository, every temperature from -40 to 85 degrees is measured back exactly. */
  lemma RepositoryTablesRoundTrip(temperature: int, t: Table)
    requires t == Table(LP4, -40) || t == Table(NCP15, -40)
    ensures t.Maximum() == 85
    ensures t.minimum + Scan(t.mv, ToMillivolts(t, temperature)) == Clamp(t, temperature)
  {
    hide Scan, ToMillivolts, Clamp, LP4, NCP15;
    Lp4Falls();
    Ncp15Falls();
    FallsDecreases(t.mv);
    RoundTrip(t);
  }
}
