/** The kernel names of a link's bridge and tunnel fit their limit and identify the link. */
module InterfaceNames {
  import opened VniAllocation

  // The kernel keeps 15 bytes of an interface name.
  const NAME_LIMIT := 15

  function Digit(d: nat): char
    requires d < 10
  {
    '0' + d as char
  }

  function Decimal(n: nat): string {
    if n < 10 then [Digit(n)] else Decimal(n / 10) + [Digit(n % 10)]
  }

  function BridgeName(vni: nat): string { "twbr" + Decimal(vni) }

  function VxlanName(vni: nat): string { "twvx" + Decimal(vni) }

  function Power(k: nat): nat { if k == 0 then 1 else 10 * Power(k - 1) }

  lemma {:induction false} DecimalLength(n: nat, k: nat)
    requires 0 < k && n < Power(k)
    ensures 0 < |Decimal(n)| <= k
    decreases k
  {
    if n >= 10 {
      DecimalLength(n / 10, k - 1);
    }
  }

  lemma {:induction false} DecimalIsInjective(m: nat, n: nat)
    requires Decimal(m) == Decimal(n)
    ensures m == n
    decreases m
  {
    var s, t := Decimal(m), Decimal(n);
    assert s[|s| - 1] == Digit(m % 10) && t[|t| - 1] == Digit(n % 10);
    if m >= 10 && n >= 10 {
      assert s[..|s| - 1] == Decimal(m / 10) && t[..|t| - 1] == Decimal(n / 10);
      DecimalIsInjective(m / 10, n / 10);
    } else {
      DecimalHasDigits(m);
      DecimalHasDigits(n);
    }
  }

  lemma {:induction false} DecimalHasDigits(n: nat)
    ensures |Decimal(n)| >= 1 && (|Decimal(n)| == 1 <==> n < 10)
  {
    if n >= 10 {
      DecimalHasDigits(n / 10);
    }
  }

  /** Names of assigned identifiers fit, and no two interfaces share one. */
  lemma NamesFitAndIdentify(v: nat, w: nat)
    requires v < VNI_MAX && w < VNI_MAX
    ensures |BridgeName(v)| <= NAME_LIMIT && |VxlanName(v)| <= NAME_LIMIT
    ensures BridgeName(v) == BridgeName(w) <==> v == w
    ensures VxlanName(v) == VxlanName(w) <==> v == w
    ensures BridgeName(v) != VxlanName(w)
  {
    assert Power(8) == 100_000_000 by {
      assert Power(4) == 10_000;
      assert Power(6) == 1_000_000;
    }
    DecimalLength(v, 8);
    if BridgeName(v) == BridgeName(w) || VxlanName(v) == VxlanName(w) {
      assert BridgeName(v)[4..] == VxlanName(v)[4..] == Decimal(v);
      assert BridgeName(w)[4..] == VxlanName(w)[4..] == Decimal(w);
      DecimalIsInjective(v, w);
    }
    assert BridgeName(v)[2] == 'b' && VxlanName(w)[2] == 'v';
  }
}
