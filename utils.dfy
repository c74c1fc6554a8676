/** Amount formatting of src/utils.ts: integer minor units (kopiykas) rendered
    as major units with two decimals, optionally with a space between groups of
    three integer digits. The JavaScript code divides by 100 in floating point
    and calls `toFixed(2)`; here the same digits come from integer division. */
module Utils {
  import opened Common

  function Abs(x: int): (r: nat)
    ensures r == x || r == -x
  {
    if x < 0 then -x else x
  }

  /** `formatAmount`: the integer part, a '.', and exactly two fraction digits. */
  function FormatAmount(amount: int): (s: string)
    ensures |s| >= 4 && s[|s| - 3] == '.'
    ensures AllDigits(s[..|s| - 3]) && AllDigits(s[|s| - 2..])
  {
    var minor := Abs(amount);
    NatToString(minor / 100) + "." + [DigitChar(minor % 100 / 10), DigitChar(minor % 10)]
  }

  /** The effect of `replace(/\B(?=(\d{3})+(?!\d))/g, ' ')` on a string of
      digits: a space goes in front of every position that is not the first
      and is followed by a positive multiple of three digits. */
  function Separate(d: string): (g: string)
    decreases |d|
  {
    if |d| <= 1 then d
    else [d[0]] + (if (|d| - 1) % 3 == 0 then " " else "") + Separate(d[1..])
  }

  /** `formatAmountWithSeparators`: split `formatAmount` at its '.', group
      the integer part, and put the fraction back unchanged. */
  function FormatAmountWithSeparators(amount: int): string
  {
    var formatted := FormatAmount(amount);
    var integer := formatted[..|formatted| - 3];
    var decimal := formatted[|formatted| - 2..];
    Separate(integer) + "." + decimal
  }

  function RemoveSpaces(s: string): string
  {
    if s == [] then [] else (if s[0] == ' ' then "" else [s[0]]) + RemoveSpaces(s[1..])
  }

  /** The integer part is grouped by threes from the right: one to three
      digits, followed by any number of groups of a space and three digits. */
  ghost predicate GroupedByThousands(g: string)
    decreases |g|
  {
    if |g| <= 3 then 1 <= |g| && AllDigits(g)
    else g[|g| - 4] == ' ' && AllDigits(g[|g| - 3..]) && GroupedByThousands(g[..|g| - 4])
  }

  lemma {:induction false} RemoveSpacesAppend(a: string, b: string)
    ensures RemoveSpaces(a + b) == RemoveSpaces(a) + RemoveSpaces(b)
  {
    if a == [] {
      assert a + b == b;
    } else {
      var head := if a[0] == ' ' then "" else [a[0]];
      DropAppend(a, b);
      RemoveSpacesAppend(a[1..], b);
      ConcatAssoc(head, RemoveSpaces(a[1..]), RemoveSpaces(b));
    }
  }

  lemma {:induction false} RemoveSpacesOfDigits(d: string)
    requires AllDigits(d)
    ensures RemoveSpaces(d) == d
  {
    if d != [] {
      RemoveSpacesOfDigits(d[1..]);
    }
  }

  /** Grouping only inserts spaces. */
  lemma {:induction false} SeparateRemoveSpaces(d: string)
    requires AllDigits(d)
    ensures RemoveSpaces(Separate(d)) == d
    decreases |d|
  {
    if |d| <= 1 {
      RemoveSpacesOfDigits(d);
    } else {
      var sep := if (|d| - 1) % 3 == 0 then " " else "";
      SeparateRemoveSpaces(d[1..]);
      RemoveSpacesAppend([d[0]] + sep, Separate(d[1..]));
      RemoveSpacesAppend([d[0]], sep);
    }
  }

  lemma {:induction false} SeparateLength(d: string)
    requires |d| >= 1
    ensures |Separate(d)| == |d| + (|d| - 1) / 3
    decreases |d|
  {
    if |d| > 1 {
      SeparateLength(d[1..]);
    }
  }

  /** Up to three digits get no separator. */
  lemma {:induction false} SeparateShort(d: string)
    requires |d| <= 3
    ensures Separate(d) == d
    decreases |d|
  {
    if |d| > 1 {
      assert Separate(d) == [d[0]] + Separate(d[1..]);
      SeparateShort(d[1..]);
      assert [d[0]] + d[1..] == d;
    }
  }

  /** Separating four or more digits gives the separated digits before the
      last three, a space, and those three digits. */
  lemma {:induction false} SeparateSplit(d: string)
    requires |d| >= 4
    ensures Separate(d) == Separate(d[..|d| - 3]) + " " + d[|d| - 3..]
    decreases |d|
  {
    if |d| == 4 {
      assert Separate(d) == [d[0]] + " " + Separate(d[1..]);
      SeparateShort(d[1..]);
      assert d[..1] == [d[0]];
      assert d[1..] == d[|d| - 3..];
    } else {
      SeparateSplit(d[1..]);
      DropTake(d, 1, |d| - 4);
      DropDrop(d, 1, |d| - 4);
      SeparateSplitStep(d);
    }
  }

  lemma PeriodThree(n: int)
    ensures (n + 3) % 3 == n % 3
  {
  }

  /** The inductive step of `SeparateSplit`: the first digit and its
      separator go in front of both sides. */
  lemma SeparateSplitStep(d: string)
    requires |d| >= 5
    requires Separate(d[1..]) == Separate(d[1..|d| - 3]) + " " + d[|d| - 3..]
    ensures Separate(d) == Separate(d[..|d| - 3]) + " " + d[|d| - 3..]
  {
    var n := |d|;
    var a := [d[0]] + (if (n - 1) % 3 == 0 then " " else "");
    var e, middle, last := d[..n - 3], d[1..n - 3], d[n - 3..];
    assert Separate(d) == a + Separate(d[1..]);
    TakeDrop(d, 1, n - 3);
    PeriodThree(n - 4);
    assert e[0] == d[0] && e[1..] == middle;
    assert Separate(e) == a + Separate(middle);
    ConcatAssoc(a, Separate(middle) + " ", last);
    ConcatAssoc(a, Separate(middle), " ");
  }

  lemma {:induction false} SeparateGroups(d: string)
    requires |d| >= 1 && AllDigits(d)
    ensures GroupedByThousands(Separate(d))
    decreases |d|
  {
    if |d| <= 3 {
      SeparateShort(d);
    } else {
      var head := d[..|d| - 3];
      var last := d[|d| - 3..];
      SeparateSplit(d);
      SeparateGroups(head);
      var g := Separate(d);
      var h := Separate(head);
      assert g == h + " " + last;
      assert g[..|g| - 4] == h;
      assert g[|g| - 3..] == last;
    }
  }

  /** Only |amount| matters. */
  lemma FormatAmountIgnoresSign(amount: int)
    ensures FormatAmount(amount) == FormatAmount(-amount)
    ensures FormatAmountWithSeparators(amount) == FormatAmountWithSeparators(-amount)
  {
  }

  /** Reading the integer digits and the two fraction digits back gives the
      absolute amount in minor units; the integer part has no leading zero. */
  lemma FormatAmountRoundTrip(amount: int)
    ensures var s := FormatAmount(amount);
      && DigitsValue(s[..|s| - 3]) * 100 + DigitsValue(s[|s| - 2..]) == Abs(amount)
      && (s[0] == '0' ==> |s| == 4)
  {
    var minor := Abs(amount);
    var s := FormatAmount(amount);
    assert s[..|s| - 3] == NatToString(minor / 100);
    NatToStringRoundTrip(minor / 100);
    var fraction := s[|s| - 2..];
    assert fraction == [DigitChar(minor % 100 / 10), DigitChar(minor % 10)];
    assert fraction[..1] == [DigitChar(minor % 100 / 10)];
    assert fraction[..1][..0] == [];
    assert DigitsValue(fraction[..1]) == minor % 100 / 10;
    assert DigitsValue(fraction) == (minor % 100 / 10) * 10 + minor % 10;
  }

  /** Deleting the spaces gives back `formatAmount`; the part from the '.' on
      is that of `formatAmount`, and the part before it is grouped by
      thousands. */
  lemma FormatAmountWithSeparatorsShape(amount: int)
    ensures var s := FormatAmountWithSeparators(amount);
      var f := FormatAmount(amount);
      && RemoveSpaces(s) == f
      && |s| >= 4
      && s[|s| - 3..] == f[|f| - 3..]
      && GroupedByThousands(s[..|s| - 3])
  {
    var f := FormatAmount(amount);
    var integer := f[..|f| - 3];
    var decimal := f[|f| - 2..];
    var s := FormatAmountWithSeparators(amount);
    assert s == Separate(integer) + ("." + decimal);
    assert f == integer + ("." + decimal);
    SeparateRemoveSpaces(integer);
    SeparateLength(integer);
    RemoveSpacesAppend(Separate(integer), "." + decimal);
    RemoveSpacesAppend(integer, "." + decimal);
    RemoveSpacesOfDigits(decimal);
    assert RemoveSpaces("." + decimal) == "." + RemoveSpaces(decimal);
    assert s[..|s| - 3] == Separate(integer);
    SeparateGroups(integer);
  }

  /** Example amounts and their formatted text. */
  lemma FormatAmountThousands()
    ensures FormatAmountWithSeparators(250000) == "2 500.00"
  {
    Numeral2500();
    Separate2500();
    Example(250000, "2500", "00", "2 500");
  }

  lemma Numeral2500()
    ensures NatToString(2500) == "2500"
  {
    assert NatToString(25) == "25";
    assert NatToString(250) == "250";
  }

  lemma Separate2500()
    ensures Separate("2500") == "2 500"
  {
    SeparateShort("500");
    assert Separate("2500") == "2" + " " + Separate("500");
  }

  lemma FormatAmountTens()
    ensures FormatAmountWithSeparators(5000) == "50.00"
  {
    Example(5000, "50", "00", "50");
  }

  lemma FormatAmountBelowOne()
    ensures FormatAmountWithSeparators(99) == "0.99"
    ensures FormatAmountWithSeparators(0) == "0.00"
  {
    Example(99, "0", "99", "0");
    Example(0, "0", "00", "0");
  }

  lemma Example(amount: int, integer: string, decimal: string, grouped: string)
    requires NatToString(Abs(amount) / 100) == integer
    requires |decimal| == 2
    requires decimal == [DigitChar(Abs(amount) % 100 / 10), DigitChar(Abs(amount) % 10)]
    requires Separate(integer) == grouped
    ensures FormatAmountWithSeparators(amount) == grouped + "." + decimal
  {
    var f := FormatAmount(amount);
    assert f == integer + "." + decimal;
    assert f[..|f| - 3] == integer;
    assert f[|f| - 2..] == decimal;
  }
}
