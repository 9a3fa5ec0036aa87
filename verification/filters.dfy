/**
 * The closed set of listing filters the handlers use, and the raw WHERE
 * fragments they pass to `get_beverages` for each.
 */
module Filters {
  import opened Schema

  datatype Filter =
    | All                      // no WHERE fragment
    | LocIsZero                // "beverageLocationId = 0": finished
    | LocNonZero               // "beverageLocationId != 0": stored
    | LocEq(location: nat)     // "beverageLocationId = <id>": held by one location

  /** The rows a filter keeps. */
  predicate Matches(f: Filter, b: Beverage)
  {
    match f
    case All => true
    case LocIsZero => b.locationId == 0
    case LocNonZero => b.locationId != 0
    case LocEq(n) => b.locationId == n
  }

  function Digit(d: nat): (c: char)
    requires d < 10
    ensures '0' <= c <= '9'
  {
    (48 + d) as char
  }

  /** Python's `str(n)` for a non-negative integer. */
  function Decimal(n: nat): (s: string)
    ensures |s| != 0
    ensures |s| == 1 <==> n < 10
    ensures forall i :: 0 <= i < |s| ==> '0' <= s[i] <= '9'
  {
    if n < 10 then [Digit(n)] else Decimal(n / 10) + [Digit(n % 10)]
  }

  /** The number a decimal digit character stands for (0 for any other character). */
  function DigitValue(c: char): (d: nat)
    ensures d < 10
  {
    if '0' <= c <= '9' then c as int - 48 else 0
  }

  /** The number a text of decimal digits denotes, read from left to right. */
  function Value(s: string): nat
  {
    if s == [] then 0 else Value(s[..|s| - 1]) * 10 + DigitValue(s[|s| - 1])
  }

  /** The decimal text of `n` denotes `n`: reading it back gives `n`. */
  lemma {:induction false} DecimalValue(n: nat)
    ensures Value(Decimal(n)) == n
    decreases n
  {
    var s := Decimal(n);
    if n < 10 {
      assert s[..0] == [];
    } else {
      assert s[..|s| - 1] == Decimal(n / 10);
      DecimalValue(n / 10);
    }
  }

  /** Different ids give different decimal texts. */
  lemma DecimalInjective(n: nat, m: nat)
    requires Decimal(n) == Decimal(m)
    ensures n == m
  {
    DecimalValue(n);
    DecimalValue(m);
  }

  /** The WHERE fragment the handlers write for a filter. */
  function WhereFor(f: Filter): string
  {
    match f
    case All => ""
    case LocIsZero => "beverageLocationId = 0"
    case LocNonZero => "beverageLocationId != 0"
    case LocEq(n) => "beverageLocationId = " + Decimal(n)
  }

  /**
   * Two filters whose fragments are the same text keep the same rows, so the
   * fragment a handler writes determines its listing.
   */
  lemma SameWhereSameRows(f: Filter, g: Filter)
    requires WhereFor(f) == WhereFor(g)
    ensures forall b :: Matches(f, b) == Matches(g, b)
  {
    var p := "beverageLocationId = ";
    assert "beverageLocationId = 0" == p + "0";
    assert "beverageLocationId != 0"[19] == '!';
    assert Decimal(0) == "0";
    if f.LocEq? {
      assert WhereFor(f)[19] == '=';
      assert WhereFor(f)[|p|..] == Decimal(f.location);
      if g.LocEq? {
        assert WhereFor(g)[|p|..] == Decimal(g.location);
        DecimalInjective(f.location, g.location);
      } else if g.LocIsZero? {
        assert WhereFor(g)[|p|..] == "0";
        DecimalInjective(f.location, 0);
      }
    } else if f.LocIsZero? && g.LocEq? {
      assert WhereFor(g)[|p|..] == Decimal(g.location);
      assert WhereFor(f)[|p|..] == "0";
      DecimalInjective(g.location, 0);
    }
  }
}
