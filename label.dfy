/**
 * The accessible name the carousel gives a slide: "Item <position> of <count>",
 * and a reader for it that recovers the position and the count.
 */
module Label {

  import opened Wrappers
  import opened Decimal

  /** The text of the label for the slide at 1-based `position` among `count` slides. */
  function ItemLabel(position: nat, count: nat): string {
    "Item " + NatToString(position) + " of " + NatToString(count)
  }

  /** The length of the longest prefix of `s` made of digits. */
  function LeadingDigits(s: string): (k: nat)
    ensures k <= |s| && AllDigits(s[..k])
    ensures k < |s| ==> !IsDigit(s[k])
    decreases |s|
  {
    if s == [] || !IsDigit(s[0]) then 0
    else
      var k := 1 + LeadingDigits(s[1..]);
      assert s[..k] == [s[0]] + s[1..][..k - 1];
      k
  }

  /** Recovers position and count from a label; None for any other text. */
  function ParseLabel(s: string): Option<(nat, nat)> {
    if |s| < 5 || s[..5] != "Item " then None
    else
      var r := s[5..];
      var k := LeadingDigits(r);
      if k == 0 || |r| <= k + 4 || r[k..k + 4] != " of " || !AllDigits(r[k + 4..]) then None
      else Some((Value(r[..k]), Value(r[k + 4..])))
  }

  lemma {:induction false} LeadingDigitsOfConcat(d: string, rest: string)
    requires AllDigits(d)
    requires rest == [] || !IsDigit(rest[0])
    ensures LeadingDigits(d + rest) == |d|
    decreases |d|
  {
    if d != [] {
      assert (d + rest)[1..] == d[1..] + rest;
      LeadingDigitsOfConcat(d[1..], rest);
    }
  }

  /** A label names its own position and count: reading it back gives both. */
  lemma ParseItemLabel(position: nat, count: nat)
    ensures ParseLabel(ItemLabel(position, count)) == Some((position, count))
  {
    var p, c := NatToString(position), NatToString(count);
    var s := ItemLabel(position, count);
    var r := p + " of " + c;
    assert s[..5] == "Item " && s[5..] == r;
    assert r == p + (" of " + c);
    LeadingDigitsOfConcat(p, " of " + c);
    assert r[..|p|] == p;
    assert r[|p|..|p| + 4] == " of ";
    assert r[|p| + 4..] == c;
    ValueOfNatToString(position);
    ValueOfNatToString(count);
    assert ParseLabel(s) == Some((Value(p), Value(c)));
  }

  /** Two slides get the same label only when they have the same position and count. */
  lemma ItemLabelInjective(p1: nat, c1: nat, p2: nat, c2: nat)
    requires ItemLabel(p1, c1) == ItemLabel(p2, c2)
    ensures p1 == p2 && c1 == c2
  {
    ParseItemLabel(p1, c1);
    ParseItemLabel(p2, c2);
  }
}
