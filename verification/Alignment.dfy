/**
  Demands on where a stretch of a file may start, and their union.

  A program segment may start at file offset x only when x and its address agree modulo its alignment
  (System V ABI, gABI chapter 5, "Program Header", p_align). Alignments 0 and 1 demand nothing.
 */
module Alignment {
  import opened ElfFormat

  datatype Demand = Demand(address: int, align: nat)

  function Effective(align: nat): (r: nat)
    ensures r >= 1 && (r == align || r == 1)
  {
    if align != 0 && PowerOfTwo(align) then align else 1
  }

  predicate Congruent(x: int, y: int, m: nat)
    requires m >= 1
  {
    (x - y) % m == 0
  }

  /** x is an offset at which a stretch with this demand may start. */
  predicate Meets(x: int, d: Demand) {
    Congruent(x, d.address, Effective(d.align))
  }

  datatype Merge = Clash | Merged(demand: Demand)

  /** How a region takes in the demand of one more of its segments. */
  function Take(current: Demand, d: Demand): Merge {
    if d.align <= 1 || !PowerOfTwo(d.align) then Merged(current)
    else
      var held := Effective(current.align);
      if (d.address - current.address) % (if held <= d.align then held else d.align) != 0 then Clash
      else if d.align > held then Merged(d)
      else Merged(current)
  }

  // ----- congruence

  lemma {:induction false} CongruentWitness(x: int, y: int, m: nat) returns (k: int)
    requires m >= 1 && Congruent(x, y, m)
    ensures x == y + k * m
  {
    k := (x - y) / m;
  }

  lemma {:induction false} CongruentBy(x: int, y: int, m: nat, k: int)
    requires m >= 1 && x == y + k * m
    ensures Congruent(x, y, m)
  {
    QuotientIs(x - y, m, k, 0);
  }

  lemma {:induction false} Scaled(k: int, m: int)
    requires m >= 1
    ensures k >= 1 ==> k * m >= m
    ensures k <= -1 ==> k * m <= -m
  {
  }

  lemma {:induction false} QuotientIs(a: int, m: nat, q: int, r: int)
    requires m >= 1 && a == q * m + r && 0 <= r < m
    ensures a % m == r
  {
    var q', r' := a / m, a % m;
    assert a == q' * m + r';
    assert (q - q') * m == r' - r;
    Scaled(q - q', m);
  }

  lemma {:induction false} CongruentSymmetric(x: int, y: int, m: nat)
    requires m >= 1 && Congruent(x, y, m)
    ensures Congruent(y, x, m)
  {
    var k := CongruentWitness(x, y, m);
    CongruentBy(y, x, m, -k);
  }

  lemma {:induction false} CongruentTransitive(x: int, y: int, z: int, m: nat)
    requires m >= 1 && Congruent(x, y, m) && Congruent(y, z, m)
    ensures Congruent(x, z, m)
  {
    var k := CongruentWitness(x, y, m);
    var l := CongruentWitness(y, z, m);
    assert x == z + (k + l) * m;
    CongruentBy(x, z, m, k + l);
  }

  /** A smaller power of two divides a greater one. */
  lemma {:induction false} SmallerPowerDivides(a: nat, b: nat) returns (k: nat)
    requires PowerOfTwo(a) && PowerOfTwo(b) && a <= b
    ensures b == k * a
    decreases b
  {
    if a == 1 {
      k := b;
    } else {
      k := SmallerPowerDivides(a / 2, b / 2);
      assert b == 2 * (k * (a / 2)) == k * a;
    }
  }

  lemma {:induction false} CongruentBelow(x: int, y: int, a: nat, b: nat)
    requires PowerOfTwo(a) && PowerOfTwo(b) && a <= b && Congruent(x, y, b)
    ensures a >= 1 && Congruent(x, y, a)
  {
    var k := SmallerPowerDivides(a, b);
    var l := CongruentWitness(x, y, b);
    assert l * b == (l * k) * a;
    CongruentBy(x, y, a, l * k);
  }

  // ----- the union of two demands

  /**
    Taking in a demand is exact: the new demand is met by precisely the offsets that meet both, and a clash
    means that no offset meets both.
   */
  lemma {:induction false} TakeIsExact(current: Demand, d: Demand, x: int)
    ensures Take(current, d).Merged? ==> (Meets(x, Take(current, d).demand) <==> Meets(x, current) && Meets(x, d))
    ensures Take(current, d).Clash? ==> !(Meets(x, current) && Meets(x, d))
  {
    if d.align > 1 && PowerOfTwo(d.align) {
      var held := Effective(current.align);
      var least := if held <= d.align then held else d.align;
      assert PowerOfTwo(held) && PowerOfTwo(least);
      if Meets(x, current) && Meets(x, d) {
        MeetingBothAgree(current, d, x, least);
      }
      if Congruent(d.address, current.address, least) {
        if held < d.align && Meets(x, d) {
          CongruentBelow(x, d.address, held, d.align);
          CongruentTransitive(x, d.address, current.address, held);
        }
        if d.align <= held && Meets(x, current) {
          CongruentBelow(x, current.address, d.align, held);
          CongruentSymmetric(d.address, current.address, d.align);
          CongruentTransitive(x, current.address, d.address, d.align);
        }
      }
    }
  }

  lemma {:induction false} MeetingBothAgree(current: Demand, d: Demand, x: int, least: nat)
    requires d.align > 1 && PowerOfTwo(d.align) && Meets(x, current) && Meets(x, d)
    requires var held := Effective(current.align);
        PowerOfTwo(held) && least == if held <= d.align then held else d.align
    ensures least >= 1 && Congruent(d.address, current.address, least)
  {
    CongruentBelow(x, d.address, least, d.align);
    CongruentBelow(x, current.address, least, Effective(current.align));
    CongruentSymmetric(x, d.address, least);
    CongruentTransitive(d.address, x, current.address, least);
  }

  /** The first offset from `cursor` on that meets a demand. */
  function Next(cursor: int, d: Demand): (r: int) {
    cursor + (d.address - cursor) % Effective(d.align)
  }

  lemma {:induction false} NextIsLeast(cursor: int, d: Demand)
    ensures cursor <= Next(cursor, d) && Meets(Next(cursor, d), d)
    ensures forall x: int :: cursor <= x && Meets(x, d) ==> Next(cursor, d) <= x
  {
    var m := Effective(d.align);
    var r := (d.address - cursor) % m;
    var q := (d.address - cursor) / m;
    assert d.address - cursor == q * m + r;
    assert Next(cursor, d) == d.address + (-q) * m;
    CongruentBy(Next(cursor, d), d.address, m, -q);
    forall x: int | cursor <= x && Meets(x, d) ensures Next(cursor, d) <= x {
      var k := CongruentWitness(x, d.address, m);
      assert x - Next(cursor, d) == (k + q) * m;
      Scaled(k + q, m);
    }
  }

  /** Meeting a demand is the rule of the ABI, in its own words. */
  lemma {:induction false} MeetsIsTheElfRule(x: int, d: Demand)
    requires d.align >= 1 && PowerOfTwo(d.align)
    ensures Meets(x, d) <==> x % d.align == d.address % d.align
  {
    var m := d.align;
    if Meets(x, d) {
      var k := CongruentWitness(x, d.address, m);
      assert x == (k + d.address / m) * m + d.address % m;
      QuotientIs(x, m, k + d.address / m, d.address % m);
    }
    if x % m == d.address % m {
      assert x == d.address + (x / m - d.address / m) * m;
      CongruentBy(x, d.address, m, x / m - d.address / m);
    }
  }
}
