/** The green-time allocation of `calculate_light_timing`
    (traffic_light_system.py): a fixed budget of green seconds shared between
    the north-south and east-west axes in proportion to their traffic, each
    share clamped to a safe range. */
module LightTiming {
  import opened Common

  /** The `{'ns_green', 'ew_green', 'yellow'}` dictionary, in seconds. */
  datatype Timing = Timing(nsGreen: int, ewGreen: int, yellow: int)

  const TotalGreen: int := 90
  const MinGreen: int := 30
  const MaxGreen: int := 60
  const YellowTime: int := 5

  function ClampGreen(g: int): (r: int)
    ensures MinGreen <= r <= MaxGreen
    ensures MinGreen <= g <= MaxGreen ==> r == g
  {
    Max(MinGreen, Min(MaxGreen, g))
  }

  /** The allocation for `ns` vehicles on the north-south axis and `ew` on the
      east-west axis (each the sum of two validated counts). */
  function ProportionalTiming(ns: int, ew: int): (t: Timing)
    ensures t.yellow == YellowTime
    ensures MinGreen <= t.nsGreen <= MaxGreen && MinGreen <= t.ewGreen <= MaxGreen
    ensures ns + ew == 0 ==> t == Timing(MinGreen, MinGreen, YellowTime)
    ensures ns + ew != 0 ==> t.nsGreen + t.ewGreen == TotalGreen
  {
    var total := ns + ew;
    if total == 0 then Timing(MinGreen, MinGreen, YellowTime)
    else
      var nsGreen := ClampGreen(TruncDiv(TotalGreen * ns, total));
      Timing(nsGreen, ClampGreen(TotalGreen - nsGreen), YellowTime)
  }

  /** All traffic on the north-south axis gets it the longest green. */
  lemma AllTrafficNorthSouth(ns: int)
    requires ns > 0
    ensures ProportionalTiming(ns, 0) == Timing(MaxGreen, MinGreen, YellowTime)
  {
    var q := NatDiv(TotalGreen * ns, ns);
    if q < TotalGreen { MulMono(q + 1, TotalGreen, ns); }
    if q > TotalGreen { MulMono(TotalGreen + 1, q, ns); }
  }

  /** All traffic on the east-west axis gets it the longest green. */
  lemma AllTrafficEastWest(ew: int)
    requires ew > 0
    ensures ProportionalTiming(0, ew) == Timing(MinGreen, MaxGreen, YellowTime)
  {
  }

  /** The north-south share before clamping is at least half the budget
      exactly when north-south has at least as many vehicles. */
  lemma RawShareAtLeastHalf(ns: nat, ew: nat)
    requires ns + ew > 0
    ensures TruncDiv(TotalGreen * ns, ns + ew) >= TotalGreen / 2 <==> ns >= ew
  {
    var total: nat := ns + ew;
    var a: nat := TotalGreen * ns;
    TruncDivOfNat(a, total);
    if ns >= ew {
      assert 45 * total <= a;
      NatDivAtLeast(a, total, 45);
    } else {
      assert a < 45 * total;
      NatDivBelow(a, total, 45);
    }
  }

  /** The busier axis never gets the shorter green: with non-negative
      traffic, north-south gets at least as much green as east-west exactly
      when it has at least as many vehicles. */
  lemma GreenFollowsDemand(ns: nat, ew: nat)
    requires ns + ew > 0
    ensures ProportionalTiming(ns, ew).nsGreen >= ProportionalTiming(ns, ew).ewGreen <==> ns >= ew
  {
    RawShareAtLeastHalf(ns, ew);
    var raw := TruncDiv(TotalGreen * ns, ns + ew);
    var t := ProportionalTiming(ns, ew);
    assert t.nsGreen == ClampGreen(raw);
    assert t.ewGreen == TotalGreen - t.nsGreen;
  }
}
