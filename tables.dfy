/** The constant English numeral tables read by the formatter: the names
    of 0..19 and of the tens, the short- and long-scale names of the powers
    of ten (in ascending key order, like the ordered dictionaries they come
    from), and the names of the fractions 1/2 .. 1/20. */
module Tables {
  import opened Wrappers

  /** Names of 0..19 and of the tens 20..90. */
  const NumStrings: map<nat, string> := map[
    0 := "zero", 1 := "one", 2 := "two", 3 := "three", 4 := "four",
    5 := "five", 6 := "six", 7 := "seven", 8 := "eight", 9 := "nine",
    10 := "ten", 11 := "eleven", 12 := "twelve", 13 := "thirteen",
    14 := "fourteen", 15 := "fifteen", 16 := "sixteen", 17 := "seventeen",
    18 := "eighteen", 19 := "nineteen", 20 := "twenty", 30 := "thirty",
    40 := "forty", 50 := "fifty", 60 := "sixty", 70 := "seventy",
    80 := "eighty", 90 := "ninety"]

  /** Short scale: entry i > 0 names 1000^i; entry 0 names 100. */
  const ShortScale: seq<(nat, string)> := [
    (100, "hundred"),
    (1_000, "thousand"),
    (1_000_000, "million"),
    (1_000_000_000, "billion"),
    (1_000_000_000_000, "trillion"),
    (1_000_000_000_000_000, "quadrillion"),
    (1_000_000_000_000_000_000, "quintillion"),
    (1_000_000_000_000_000_000_000, "sextillion"),
    (1_000_000_000_000_000_000_000_000, "septillion"),
    (1_000_000_000_000_000_000_000_000_000, "octillion"),
    (1_000_000_000_000_000_000_000_000_000_000, "nonillion"),
    (1_000_000_000_000_000_000_000_000_000_000_000, "decillion")]

  /** Long scale: entry 0 names 100, entry 1 names 1000 and entry k >= 2
      names 10^(6(k-1)). */
  const LongScale: seq<(nat, string)> := [
    (100, "hundred"),
    (1_000, "thousand"),
    (1_000_000, "million"),
    (1_000_000_000_000, "billion"),
    (1_000_000_000_000_000_000, "trillion"),
    (1_000_000_000_000_000_000_000_000, "quadrillion"),
    (1_000_000_000_000_000_000_000_000_000_000, "quintillion"),
    (1_000_000_000_000_000_000_000_000_000_000_000_000, "sextillion"),
    (1_000_000_000_000_000_000_000_000_000_000_000_000_000_000, "septillion"),
    (1_000_000_000_000_000_000_000_000_000_000_000_000_000_000_000_000, "octillion"),
    (1_000_000_000_000_000_000_000_000_000_000_000_000_000_000_000_000_000_000, "nonillion"),
    (1_000_000_000_000_000_000_000_000_000_000_000_000_000_000_000_000_000_000_000_000, "decillion")]

  /** Names of the fractions 1/d, d = 2..20. */
  const FractionStrings: map<int, string> := map[
    2 := "half", 3 := "third", 4 := "quarter", 5 := "fifth", 6 := "sixth",
    7 := "seventh", 8 := "eighth", 9 := "ninth", 10 := "tenth",
    11 := "eleventh", 12 := "twelfth", 13 := "thirteenth",
    14 := "fourteenth", 15 := "fifteenth", 16 := "sixteenth",
    17 := "seventeenth", 18 := "eighteenth", 19 := "nineteenth",
    20 := "twentieth"]

  function Pow(b: nat, e: nat): (r: nat)
    ensures b > 0 ==> r > 0
  {
    if e == 0 then 1 else b * Pow(b, e - 1)
  }

  /** The scale table in use. */
  function Scale(short: bool): seq<(nat, string)> {
    if short then ShortScale else LongScale
  }

  /** `hundreds` of the formatter: the scale names in key order. Both
      scales use the same twelve names; only the values they stand for
      differ. */
  function ScaleNames(short: bool): (names: seq<string>)
    ensures |names| == |Scale(short)|
    ensures names == ["hundred", "thousand", "million", "billion", "trillion",
                      "quadrillion", "quintillion", "sextillion", "septillion",
                      "octillion", "nonillion", "decillion"]
    ensures forall i :: 0 <= i < |names| ==> names[i] == Scale(short)[i].1
  {
    seq(|Scale(short)|, i requires 0 <= i < |Scale(short)| => Scale(short)[i].1)
  }

  /** The value the k-th scale entry is meant to name. */
  function ScaleValue(short: bool, k: nat): nat {
    if k == 0 then 100
    else if short || k == 1 then Pow(1000, k)
    else Pow(1000, 2 * (k - 1))
  }

  /** The first scale entry whose key is n. */
  function ScaleLookup(t: seq<(nat, string)>, n: nat): (r: Option<string>)
    ensures r.Some? <==> exists k :: 0 <= k < |t| && t[k].0 == n
    ensures r.Some? ==> exists k :: 0 <= k < |t| && t[k] == (n, r.value)
  {
    if t == [] then None
    else if t[0].0 == n then (assert t[0] == (n, t[0].1); Some(t[0].1))
    else
      var r := ScaleLookup(t[1..], n);
      assert forall k :: 0 < k < |t| ==> t[k] == t[1..][k - 1];
      r
  }

  /** The merged name table of the formatter (NumStrings updated with the
      scale table) looked up at n. */
  function NumberName(short: bool, n: nat): (r: Option<string>)
  {
    match ScaleLookup(Scale(short), n)
    case Some(w) => Some(w)
    case None => if n in NumStrings then Some(NumStrings[n]) else None
  }

  /** Each scale table holds, in ascending order, the values it is meant to
      name, so key order and group order agree. */
  lemma ScaleTablesShaped(short: bool)
    ensures |Scale(short)| == 12
    ensures forall k :: 0 <= k < 12 ==> Scale(short)[k].0 == ScaleValue(short, k)
    ensures Scale(short)[0] == (100, "hundred") && Scale(short)[1] == (1000, "thousand")
  {
    assert Pow(1000, 1) == 1_000;
    assert Pow(1000, 2) == 1_000_000;
    assert Pow(1000, 3) == 1_000_000_000;
    assert Pow(1000, 4) == 1_000_000_000_000;
    assert Pow(1000, 5) == 1_000_000_000_000_000;
    assert Pow(1000, 6) == 1_000_000_000_000_000_000;
    assert Pow(1000, 7) == 1_000_000_000_000_000_000_000;
    assert Pow(1000, 8) == 1_000_000_000_000_000_000_000_000;
    assert Pow(1000, 9) == 1_000_000_000_000_000_000_000_000_000;
    assert Pow(1000, 10) == 1_000_000_000_000_000_000_000_000_000_000;
    assert Pow(1000, 11) == 1_000_000_000_000_000_000_000_000_000_000_000;
    assert Pow(1000, 12) == 1_000_000_000_000_000_000_000_000_000_000_000_000;
    assert Pow(1000, 14) == 1_000_000_000_000_000_000_000_000_000_000_000_000_000_000;
    assert Pow(1000, 16) == 1_000_000_000_000_000_000_000_000_000_000_000_000_000_000_000_000;
    assert Pow(1000, 18) == 1_000_000_000_000_000_000_000_000_000_000_000_000_000_000_000_000_000_000;
    assert Pow(1000, 20) == 1_000_000_000_000_000_000_000_000_000_000_000_000_000_000_000_000_000_000_000_000;
  }

  /** Every scale key after the first is at least a thousand. */
  lemma ScaleKeyAtLeastThousand(short: bool, k: nat)
    requires 1 <= k < |Scale(short)|
    ensures Scale(short)[k].0 >= 1000
  {
    ScaleTablesShaped(short);
    assert Scale(short)[k].0 == ScaleValue(short, k);
    if short || k == 1 {
      PowAtLeastBase(k);
    } else {
      PowAtLeastBase(2 * (k - 1));
    }
  }

  lemma {:induction false} PowAtLeastBase(e: nat)
    requires e >= 1
    ensures Pow(1000, e) >= 1000
  {
    if e > 1 {
      PowAtLeastBase(e - 1);
    }
  }

  /** The number names cover 0..19 and the tens, and nothing else below 100. */
  /** Every number name is a non-empty word. */
  lemma NamesNonEmpty(n: nat)
    requires n in NumStrings
    ensures |NumStrings[n]| > 0
  {
  }

  lemma NumStringsDomain(n: nat)
    ensures n in NumStrings <==> n < 20 || (n < 100 && n % 10 == 0)
  {
  }
}
