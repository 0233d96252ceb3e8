/**
 * `Region` and its JSON decoder. The remote API sends a region as its
 * 1-based number in text; the decoder parses it as a Java `int`, subtracts
 * one (in 32-bit arithmetic), and indexes the enum's declared constants. Any
 * failure at all (text that is not an integer, an index outside the array)
 * yields `UNKNOWN`, so the decoder never fails.
 */
module Regions {
  import opened Wrappers
  import opened JavaInt

  /** The enum constants, in declaration order. `UNKNOWN` is internal and must come last. */
  datatype Region =
    | PRAHA | STREDOCESKY | JIHOCESKY | PLZENSKY | KARLOVARSKY | USTECKY | LIBERECKY
    | KRALOVEHRADECKY | PARDUBICKY | VYSOCINA | JIHOMORAVSKY | OLOMOUCKY
    | MORAVSKOSLEZSKY | ZLINSKY | UNKNOWN

  /** `Region.values()`: every constant once, in declaration order. */
  const Values: seq<Region> := [
    PRAHA, STREDOCESKY, JIHOCESKY, PLZENSKY, KARLOVARSKY, USTECKY, LIBERECKY,
    KRALOVEHRADECKY, PARDUBICKY, VYSOCINA, JIHOMORAVSKY, OLOMOUCKY,
    MORAVSKOSLEZSKY, ZLINSKY, UNKNOWN
  ]

  /** `Region.ordinal()`: the constant's position in `Values`. */
  function Ordinal(r: Region): (i: nat)
    ensures i < |Values| && Values[i] == r
  {
    match r
    case PRAHA => 0
    case STREDOCESKY => 1
    case JIHOCESKY => 2
    case PLZENSKY => 3
    case KARLOVARSKY => 4
    case USTECKY => 5
    case LIBERECKY => 6
    case KRALOVEHRADECKY => 7
    case PARDUBICKY => 8
    case VYSOCINA => 9
    case JIHOMORAVSKY => 10
    case OLOMOUCKY => 11
    case MORAVSKOSLEZSKY => 12
    case ZLINSKY => 13
    case UNKNOWN => 14
  }

  /**
   * The array index the decoder computes, `Integer.parseInt(id) - 1` with
   * `int` wrap-around, or `None` when parsing throws.
   */
  function ArrayIndex(id: string): (r: Option<int32>)
    ensures r.None? <==> ParseInt(id).None?
    ensures r.Some? && ParseInt(id).value != MIN_VALUE ==> r.value == ParseInt(id).value - 1
    ensures r.Some? && ParseInt(id).value == MIN_VALUE ==> r.value == MAX_VALUE
  {
    match ParseInt(id)
    case None => None
    case Some(n) => Some(Sub(n, 1))
  }

  /**
   * `RegionDeserializer.deserialize`: the API number `n` selects the
   * `n`-th declared constant (counting from 1) when `1 <= n <= 15`; every
   * other text, including overflowing and non-numeric text, gives `UNKNOWN`.
   */
  function Deserialize(id: string): (r: Region)
    ensures ParseInt(id).Some? && 1 <= ParseInt(id).value <= |Values| ==> r == Values[ParseInt(id).value - 1]
    ensures ParseInt(id).None? ==> r == UNKNOWN
    ensures ParseInt(id).Some? && !(1 <= ParseInt(id).value <= |Values|) ==> r == UNKNOWN
  {
    match ArrayIndex(id)
    case Some(i) =>
      if 0 <= i < |Values| then Values[i] else UNKNOWN // ArrayIndexOutOfBoundsException
    case None => UNKNOWN // NumberFormatException
  }

  /** The declared constants are pairwise distinct and `Ordinal` inverts indexing. */
  lemma ValuesAreAnEnumeration()
    ensures |Values| == 15
    ensures forall i :: 0 <= i < |Values| ==> Ordinal(Values[i]) == i
    ensures forall i, j :: 0 <= i < j < |Values| ==> Values[i] != Values[j]
  {
    forall i | 0 <= i < |Values|
      ensures Ordinal(Values[i]) == i
    {
    }
  }

  /** `UNKNOWN` is declared last: no constant has a higher ordinal. */
  lemma UnknownIsLast(r: Region)
    ensures Ordinal(r) <= Ordinal(UNKNOWN) == |Values| - 1
  {
  }

  /** The text of every API number from 1 to 14 decodes to the matching real region. */
  lemma DeserializeApiNumber(n: int)
    requires 1 <= n <= 14
    ensures Deserialize(ToDecimal(n)) == Values[n - 1]
    ensures Deserialize(ToDecimal(n)) != UNKNOWN
    ensures Ordinal(Deserialize(ToDecimal(n))) == n - 1
  {
    ParseIntToDecimal(n);
    ValuesAreAnEnumeration();
  }

  /** The API numbers "1" and "14" name the first and the last real region. */
  lemma DeserializeFirstAndLast()
    ensures Deserialize("1") == PRAHA
    ensures Deserialize("14") == ZLINSKY
  {
    DeserializeApiNumber(1);
    DeserializeApiNumber(14);
  }

  /** "15" is a valid index (14), so `UNKNOWN` comes from the array, not from the fallback. */
  lemma DeserializeFifteen()
    ensures ArrayIndex("15") == Some(14)
    ensures 14 < |Values| && Values[14] == UNKNOWN
    ensures Deserialize("15") == UNKNOWN
  {
    ParseIntToDecimal(15);
    assert ToDecimal(15) == "15";
  }

  /** Text that is not a Java `int` decodes to `UNKNOWN`: letters, the empty text, a lone sign, overflow. */
  lemma DeserializeNotAnInt(id: string)
    requires ParseInt(id).None?
    ensures Deserialize(id) == UNKNOWN
  {
  }

  /** Concrete malformed inputs, including one just past `Integer.MAX_VALUE`. */
  lemma DeserializeMalformedExamples()
    ensures Deserialize("") == UNKNOWN
    ensures Deserialize("-") == UNKNOWN
    ensures Deserialize("PRAHA") == UNKNOWN
    ensures Deserialize("1.0") == UNKNOWN
    ensures Deserialize("2147483648") == UNKNOWN
  {
    assert !AllDigits("PRAHA") by { assert !IsDigit("PRAHA"[0]); }
    assert !AllDigits("1.0") by { assert !IsDigit("1.0"[1]); }
    assert DigitsValue("2") == 2;
    assert DigitsValue("21") == 21 by { assert "21"[..1] == "2"; }
    assert DigitsValue("214") == 214 by { assert "214"[..2] == "21"; }
    assert DigitsValue("2147") == 2147 by { assert "2147"[..3] == "214"; }
    assert DigitsValue("21474") == 21474 by { assert "21474"[..4] == "2147"; }
    assert DigitsValue("214748") == 214748 by { assert "214748"[..5] == "21474"; }
    assert DigitsValue("2147483") == 2147483 by { assert "2147483"[..6] == "214748"; }
    assert DigitsValue("21474836") == 21474836 by { assert "21474836"[..7] == "2147483"; }
    assert DigitsValue("214748364") == 214748364 by { assert "214748364"[..8] == "21474836"; }
    assert DigitsValue("2147483648") == 2147483648 by { assert "2147483648"[..9] == "214748364"; }
  }

  /** Numbers outside 1..15 decode to `UNKNOWN`; `Integer.MIN_VALUE - 1` wraps to `MAX_VALUE`, still out of range. */
  lemma DeserializeOutOfRange(id: string)
    requires ParseInt(id).Some? && (ParseInt(id).value < 1 || ParseInt(id).value > |Values|)
    ensures Deserialize(id) == UNKNOWN
    ensures ParseInt(id).value == MIN_VALUE ==> ArrayIndex(id) == Some(MAX_VALUE)
  {
  }

  /** The decoder recognises a real region exactly when the text is an `int` from 1 to 14. */
  lemma DeserializeRecognises(id: string)
    ensures Deserialize(id) != UNKNOWN <==> ParseInt(id).Some? && 1 <= ParseInt(id).value <= 14
  {
    ValuesAreAnEnumeration();
  }
}
