/**
 * The T.C. Kimlik No entry step of Controller/IdentityController.swift:
 * input filtering, the checksum, and the customer-number format. The five
 * random digits of a customer number are an argument.
 */
module Identity {
  import opened Wrappers
  import opened Text

  /** `onTCChanged`'s filter: the first eleven numeric characters, in order. */
  function FilterTC(value: string): (tc: string)
    ensures |tc| <= 11 && AllDigits(tc)
    ensures tc <= KeepDigits(value)
    ensures |tc| == if |KeepDigits(value)| < 11 then |KeepDigits(value)| else 11
  {
    Prefix(KeepDigits(value), 11)
  }

  /** Feeding the filtered text back in leaves it as it is. */
  lemma FilterTCIdempotent(value: string)
    ensures FilterTC(FilterTC(value)) == FilterTC(value)
  {
  }

  /** A separator typed between digits is dropped. */
  lemma FilterTCExample()
    ensures FilterTC("100000 00146") == "10000000146"
  {
    assert "100000 00146" == "100000" + " " + "00146";
    assert KeepDigits("100000" + " " + "00146") == "100000" + "00146" by {
      KeepDigitsAroundSpace("100000", "00146");
    }
    assert "100000" + "00146" == "10000000146";
  }

  lemma KeepDigitsAroundSpace(a: string, b: string)
    requires AllDigits(a) && AllDigits(b)
    ensures KeepDigits(a + " " + b) == a + b
  {
    KeepDigitsSkips(a, " ", b);
  }

  function DigitValue(c: char): int {
    c as int - '0' as int
  }

  /**
   * Swift's `x % 10` on `Int`: the remainder takes the sign of the
   * dividend, unlike Dafny's Euclidean `%`.
   */
  function SwiftRem10(a: int): (r: int)
    ensures (a - r) % 10 == 0
    ensures a >= 0 ==> 0 <= r < 10
    ensures a < 0 ==> -10 < r <= 0
  {
    if a >= 0 then a % 10 else -((-a) % 10)
  }

  /** 7 times the digits at positions 1, 3, 5, 7, 9 less those at 2, 4, 6, 8. */
  function TenthDigitSource(tc: string): int
    requires |tc| == 11
  {
    var oddSum := DigitValue(tc[0]) + DigitValue(tc[2]) + DigitValue(tc[4]) + DigitValue(tc[6]) + DigitValue(tc[8]);
    var evenSum := DigitValue(tc[1]) + DigitValue(tc[3]) + DigitValue(tc[5]) + DigitValue(tc[7]);
    oddSum * 7 - evenSum
  }

  /** The sum of the first ten digits. */
  function FirstTenSum(tc: string): int
    requires |tc| == 11
  {
    DigitValue(tc[0]) + DigitValue(tc[1]) + DigitValue(tc[2]) + DigitValue(tc[3]) + DigitValue(tc[4])
    + DigitValue(tc[5]) + DigitValue(tc[6]) + DigitValue(tc[7]) + DigitValue(tc[8]) + DigitValue(tc[9])
  }

  /** Eleven digits, the first not '0'. */
  predicate WellFormedTC(tc: string) {
    |tc| == 11 && AllDigits(tc) && tc[0] != '0'
  }

  /**
   * `isValidTCKN` as written: the tenth digit is compared with Swift's
   * truncating remainder of the weighted difference.
   */
  predicate IsValidTCKNAsWritten(tc: string): (r: bool)
    ensures r <==> IsValidTCKN(tc) && (TenthDigitSource(tc) >= 0 || TenthDigitSource(tc) % 10 == 0)
  {
    WellFormedTC(tc)
    && DigitValue(tc[9]) == SwiftRem10(TenthDigitSource(tc))
    && DigitValue(tc[10]) == SwiftRem10(FirstTenSum(tc))
  }

  /**
   * The published checksum: both check digits are remainders modulo 10.
   * The last digit of a valid number is always even.
   */
  predicate IsValidTCKN(tc: string): (r: bool)
    ensures r ==> WellFormedTC(tc) && DigitValue(tc[10]) % 2 == 0
  {
    WellFormedTC(tc)
    && DigitValue(tc[9]) == TenthDigitSource(tc) % 10
    && (LastCheckDigitEven(tc); DigitValue(tc[10]) == FirstTenSum(tc) % 10)
  }

  /**
   * The first ten digits sum to 8 times the odd-position sum, less a
   * multiple of 10, so the last check digit is even.
   */
  lemma LastCheckDigitEven(tc: string)
    requires |tc| == 11 && DigitValue(tc[9]) == TenthDigitSource(tc) % 10
    ensures FirstTenSum(tc) % 10 % 2 == 0
  {
    var odd := DigitValue(tc[0]) + DigitValue(tc[2]) + DigitValue(tc[4]) + DigitValue(tc[6]) + DigitValue(tc[8]);
    var q := TenthDigitSource(tc) / 10;
    assert FirstTenSum(tc) == 8 * odd - 10 * q;
    var q' := FirstTenSum(tc) / 10;
    assert FirstTenSum(tc) % 10 == 2 * (4 * odd - 5 * q - 5 * q');
  }

  /** Everything the code as written accepts is a valid number. */
  lemma AsWrittenIsStricter(tc: string)
    ensures IsValidTCKNAsWritten(tc) ==> IsValidTCKN(tc)
  {
  }

  /**
   * The code as written rejects exactly the valid numbers whose weighted
   * difference is negative and not a multiple of 10.
   */
  lemma AsWrittenRejects(tc: string)
    ensures IsValidTCKN(tc) && !IsValidTCKNAsWritten(tc) <==>
      IsValidTCKN(tc) && TenthDigitSource(tc) < 0 && TenthDigitSource(tc) % 10 != 0
  {
  }

  /** "19090909018": 7 * 1 - 36 = -29 leaves -9 in Swift but 1 modulo 10. */
  lemma AsWrittenCounterexample()
    ensures IsValidTCKN("19090909018") && !IsValidTCKNAsWritten("19090909018")
  {
    var tc := "19090909018";
    assert tc[0] == '1' && tc[1] == '9' && tc[2] == '0' && tc[3] == '9' && tc[4] == '0' && tc[5] == '9';
    assert tc[6] == '0' && tc[7] == '9' && tc[8] == '0' && tc[9] == '1' && tc[10] == '8';
    assert TenthDigitSource(tc) == -29;
    assert FirstTenSum(tc) == 38;
  }

  /** "10000000146" is valid; changing only its last digit makes it invalid. */
  lemma ChecksumExamples()
    ensures IsValidTCKN("10000000146") && IsValidTCKNAsWritten("10000000146")
    ensures !IsValidTCKN("10000000147") && !IsValidTCKNAsWritten("10000000147")
  {
    var tc := "10000000146";
    assert tc[0] == '1' && tc[1] == '0' && tc[2] == '0' && tc[3] == '0' && tc[4] == '0' && tc[5] == '0';
    assert tc[6] == '0' && tc[7] == '0' && tc[8] == '1' && tc[9] == '4' && tc[10] == '6';
    assert TenthDigitSource(tc) == 14 && FirstTenSum(tc) == 6;
    var bad := "10000000147";
    assert bad[10] == '7' && bad[..10] == tc[..10];
    assert FirstTenSum(bad) == 6;
  }

  /** The first nine digits fix the two check digits. */
  lemma CheckDigitsUnique(a: string, b: string)
    requires IsValidTCKN(a) && IsValidTCKN(b) && a[..9] == b[..9]
    ensures a == b
  {
    assert forall i :: 0 <= i < 9 ==> a[i] == a[..9][i] == b[..9][i] == b[i];
    assert a[9] == b[9] by {
      assert DigitValue(a[9]) == DigitValue(b[9]);
    }
    assert a[10] == b[10] by {
      assert DigitValue(a[10]) == DigitValue(b[10]);
    }
  }

  function DigitChar(d: int): (c: char)
    requires 0 <= d < 10
    ensures IsDigit(c) && DigitValue(c) == d
  {
    ('0' as int + d) as char
  }

  /** Every nine-digit prefix not starting with '0' has a valid completion. */
  function CompleteTC(prefix: string): (tc: string)
    requires |prefix| == 9 && AllDigits(prefix) && prefix[0] != '0'
    ensures IsValidTCKN(tc) && tc[..9] == prefix
  {
    var partial := prefix + [DigitChar(TenthDigitSource(prefix + "00") % 10)];
    assert partial[..9] == prefix;
    var tc := partial + [DigitChar(FirstTenSum(partial + "0") % 10)];
    assert tc[..9] == prefix && tc[..10] == partial;
    assert TenthDigitSource(tc) == TenthDigitSource(prefix + "00");
    assert FirstTenSum(tc) == FirstTenSum(partial + "0");
    tc
  }

  /** `generateCustomerNumber(for:)`: "ZB-", the last three of `tc`, "-", five digits. */
  function GenerateCustomerNumber(tc: string, random: string): (n: string)
    requires |random| == 5 && AllDigits(random)
    ensures |n| == |Suffix(tc, 3)| + 9
    ensures n[..3] == "ZB-" && n[|n| - 6] == '-' && n[|n| - 5..] == random
    ensures n[3..|n| - 6] == Suffix(tc, 3)
    ensures |tc| >= 3 ==> |n| == 12
  {
    "ZB-" + Suffix(tc, 3) + "-" + random
  }

  /** The parts of a customer number, read back from its fixed layout. */
  function ParseCustomerNumber(n: string): (parts: Option<(string, string)>)
    ensures parts.Some? ==> |n| == 12 && n == "ZB-" + parts.value.0 + "-" + parts.value.1
  {
    if |n| == 12 && n[..3] == "ZB-" && n[6] == '-' then
      assert n == n[..3] + n[3..6] + [n[6]] + n[7..];
      Some((n[3..6], n[7..]))
    else None
  }

  /** A number generated from an identity number of three or more characters parses back. */
  lemma CustomerNumberRoundTrip(tc: string, random: string)
    requires |random| == 5 && AllDigits(random) && |tc| >= 3
    ensures ParseCustomerNumber(GenerateCustomerNumber(tc, random)) == Some((tc[|tc| - 3..], random))
  {
    var n := GenerateCustomerNumber(tc, random);
    assert n[3..6] == tc[|tc| - 3..];
    assert n[7..] == random;
  }

  class IdentityController {
    var tc: string
    var isTCValid: bool
    var customerNumber: Option<string>
    var errorMessage: Option<string>
    var isSubmitting: bool
    /** Whether this is a DEBUG build, fixed at compile time. */
    const debugBuild: bool

    /** `init`: empty input, nothing valid, nothing submitted. */
    constructor (debugBuild: bool)
      ensures this.debugBuild == debugBuild
      ensures tc == [] && !isTCValid && customerNumber.None? && errorMessage.None? && !isSubmitting
    {
      this.debugBuild := debugBuild;
      tc := "";
      isTCValid := false;
      customerNumber := None;
      errorMessage := None;
      isSubmitting := false;
    }

    /**
     * `onTCChanged(_:)`: keep the first eleven digits; a DEBUG build only
     * counts them, a release build runs the checksum as written, truncating
     * remainder included; any old error is cleared. A release build thus
     * accepts only valid numbers, though not all of them.
     */
    method OnTCChanged(value: string)
      modifies this`tc, this`isTCValid, this`errorMessage
      ensures tc == FilterTC(value)
      ensures isTCValid == if debugBuild then |tc| == 11 else IsValidTCKNAsWritten(tc)
      ensures errorMessage.None?
      ensures isTCValid ==> |tc| == 11 && AllDigits(tc)
      ensures !debugBuild && isTCValid ==> IsValidTCKN(tc)
    {
      tc := FilterTC(value);
      if debugBuild {
        isTCValid := |tc| == 11;
      } else {
        isTCValid := IsValidTCKNAsWritten(tc);
        AsWrittenIsStricter(tc);
      }
      errorMessage := None;
    }
  }
}
