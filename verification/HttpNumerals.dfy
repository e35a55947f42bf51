/** Numbers in a message head: what the 64-bit accumulation with its own overflow
    test computes, against the mathematical value of the numeral. */
module HttpNumerals {
  import opened Wrappers
  import opened HttpTypes
  import opened HttpSwitch

  predicate Decimal(ds: string) { ds != [] && forall c :: c in ds ==> IsNum(c) }
  predicate Hexadecimal(ds: string) { ds != [] && forall c :: c in ds ==> IsHex(c) }

  function DigitOf(c: char): nat { if Unhex(c) == -1 then 0 else Unhex(c) }

  /** The number a numeral denotes. */
  function Value(ds: string, base: nat): nat {
    if ds == [] then 0 else Value(ds[..|ds| - 1], base) * base + DigitOf(ds[|ds| - 1])
  }

  /** What the parser makes of it: the first digit is stored, each further one accumulated. */
  function Parsed(ds: string, base: nat): Option<nat>
    requires ds != []
  {
    if |ds| == 1 then Some(DigitOf(ds[0]))
    else match Parsed(ds[..|ds| - 1], base)
      case None => None
      case Some(v) => Accumulate(v, base, DigitOf(ds[|ds| - 1]))
  }

  lemma {:induction false} ParsedBounded(ds: string, base: nat)
    requires ds != []
    ensures Parsed(ds, base).Some? ==> Parsed(ds, base).value < NO_LENGTH
  {}

  lemma AccumulateExact(v: nat, base: nat, d: nat)
    requires base >= 1 && v * base + d < NO_LENGTH
    ensures Accumulate(v, base, d) == Some(v * base + d)
  {
    assert v * base >= v;
    assert (v * base + d) % TWO64 == v * base + d;
  }

  lemma LastDigit(ds: string, base: nat)
    requires |ds| >= 2 && base >= 1
    ensures
      var init, d := ds[..|ds| - 1], DigitOf(ds[|ds| - 1]);
      && Value(ds, base) == Value(init, base) * base + d && Value(init, base) <= Value(ds, base)
      && (Parsed(init, base).Some? ==> Parsed(ds, base) == Accumulate(Parsed(init, base).value, base, d))
  {
    hide DigitOf, Accumulate;
    Grows(Value(ds[..|ds| - 1], base), base);
  }

  lemma Grows(v: nat, base: nat)
    requires base >= 1
    ensures v <= v * base
  {}

  lemma {:induction false} ParsedBelow(ds: string, base: nat)
    requires ds != [] && base >= 2 && Value(ds, base) < NO_LENGTH
    ensures Parsed(ds, base) == Some(Value(ds, base))
  {
    if |ds| == 1 {
      OneDigit(ds, base);
    } else {
      hide Value, Parsed, Accumulate, DigitOf;
      LastDigit(ds, base);
      ParsedBelow(ds[..|ds| - 1], base);
      AccumulateExact(Value(ds[..|ds| - 1], base), base, DigitOf(ds[|ds| - 1]));
    }
  }

  lemma OneDigit(ds: string, base: nat)
    requires |ds| == 1
    ensures Value(ds, base) == DigitOf(ds[0]) && Parsed(ds, base) == Some(DigitOf(ds[0]))
  {
    assert Value(ds[..0], base) == 0;
  }

  /** The parser reads a numeral correctly exactly when its value is below 2^64 - 1:
      no false overflow below, no correct reading above. */
  lemma {:induction false} ParsedExact(ds: string, base: nat)
    requires ds != [] && base >= 2
    ensures Parsed(ds, base) == Some(Value(ds, base)) <==> Value(ds, base) < NO_LENGTH
  {
    ParsedBounded(ds, base);
    hide Value, Parsed;
    if Value(ds, base) < NO_LENGTH { ParsedBelow(ds, base); }
  }

  /** The digit 5 followed by `k` zeros. */
  function FiveZeros(k: nat): string { ['5'] + seq(k, _ => '0') }

  function FiveTimes(k: nat): nat { if k == 0 then 5 else FiveTimes(k - 1) * 10 }

  lemma FiveTimesValue()
    ensures FiveTimes(18) == 5_000_000_000_000_000_000
  {
    assert FiveTimes(6) == 5_000_000 by { assert FiveTimes(3) == 5000; }
    assert FiveTimes(12) == 5_000_000_000_000 by { assert FiveTimes(9) == 5_000_000_000; }
    assert FiveTimes(15) == 5_000_000_000_000_000;
  }

  /** The overflow test is not complete: the 20-digit length 50000000000000000000 wraps
      around and is accepted as 13106511852580896768. */
  lemma OverflowAccepted()
    ensures Parsed(FiveZeros(19), 10) == Some(13_106_511_852_580_896_768)
    ensures Parsed(FiveZeros(19), 10) != Some(Value(FiveZeros(19), 10))
  {
    var ds := FiveZeros(19);
    assert ds[..|ds| - 1] == FiveZeros(18) && ds[|ds| - 1] == '0';
    FiveTimesValue();
    FiveZerosValue(18);
    ParsedExact(FiveZeros(18), 10);
    FiveZerosValue(19);
    ParsedExact(ds, 10);
    assert FiveTimes(19) == 50_000_000_000_000_000_000;
    assert 50_000_000_000_000_000_000 % TWO64 == 13_106_511_852_580_896_768;
  }

  lemma {:induction false} FiveZerosValue(k: nat)
    ensures Value(FiveZeros(k), 10) == FiveTimes(k)
  {
    var ds := FiveZeros(k);
    if k == 0 {
      assert ds[..0] == [];
    } else {
      FiveZerosValue(k - 1);
      assert ds[..|ds| - 1] == FiveZeros(k - 1) && ds[|ds| - 1] == '0';
    }
  }
}
