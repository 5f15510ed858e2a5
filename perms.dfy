/**
 * Permission strings (internal/provider/ssh/util.go): `ParsePermissions`
 * reads an octal string with `strconv.ParseUint(perms, 8, 32)` and falls
 * back to 0644; permissions read back are rendered with `%04o`.
 */
module Perms {
  import opened Results
  import opened Text

  /** 0644 octal. */
  const DefaultPerms: nat := 420

  /** 2^32: `ParseUint` with bit size 32 rejects any value from here up. */
  const Uint32Limit: nat := 0x1_0000_0000

  predicate IsOctalDigit(c: char) {
    '0' <= c <= '7'
  }

  /** The two ways `strconv.ParseUint` fails. */
  datatype NumError = ErrSyntax | ErrRange

  /**
   * The first `k` characters of `s` are octal digits whose value no longer
   * fits in 32 bits: the scan of `ParseUint` stops there with a range error.
   */
  predicate PrefixOverflows(s: string, k: int) {
    0 < k <= |s| && AllDigitsBelow(s[..k], 8) && DigitsValue(s[..k], 8) >= Uint32Limit
  }

  /**
   * `strconv.ParseUint(s, 8, 32)`. With an explicit base there is no prefix,
   * sign or underscore. The empty string is a syntax error. Otherwise the
   * characters are read left to right: a character that is not an octal
   * digit is a syntax error, and a digit that takes the value read so far to
   * 2^32 or beyond is a range error, whatever follows it.
   */
  function ParseUintOctal32(s: string): (r: Result<nat, NumError>)
    ensures r.Ok? <==> s != [] && AllDigitsBelow(s, 8) && DigitsValue(s, 8) < Uint32Limit
    ensures r.Ok? ==> r.value == DigitsValue(s, 8) && r.value < Uint32Limit
    ensures r == Err(ErrRange) <==> exists k :: PrefixOverflows(s, k)
    ensures r.Err? <==> s == [] || (exists i :: 0 <= i < |s| && !IsOctalDigit(s[i])) || DigitsValue(s, 8) >= Uint32Limit
  {
    if s == [] then Err(ErrSyntax)
    else
      assert s[..0] == [];
      ScanOctalSpec(s, 0, 0);
      ScanOctal(s, 0, 0)
  }

  /** The loop of `ParseUint` from position `i`, with `n` the value of the digits before it. */
  function ScanOctal(s: string, i: nat, n: nat): Result<nat, NumError>
    requires i <= |s|
    decreases |s| - i
  {
    if i == |s| then Ok(n)
    else if !IsOctalDigit(s[i]) then Err(ErrSyntax)
    else
      var n1 := n * 8 + DigitValue(s[i]);
      if n1 >= Uint32Limit then Err(ErrRange) else ScanOctal(s, i + 1, n1)
  }

  /** The scan from `i` succeeds, or stops at an overflowing prefix, as the whole string's digits decide. */
  lemma {:induction false} ScanOctalSpec(s: string, i: nat, n: nat)
    requires i <= |s| && AllDigitsBelow(s[..i], 8) && n == DigitsValue(s[..i], 8) && n < Uint32Limit
    ensures ScanOctal(s, i, n).Ok? <==> AllDigitsBelow(s, 8) && DigitsValue(s, 8) < Uint32Limit
    ensures ScanOctal(s, i, n).Ok? ==> ScanOctal(s, i, n).value == DigitsValue(s, 8)
    ensures ScanOctal(s, i, n) == Err(ErrRange) <==> exists k :: PrefixOverflows(s, k)
    decreases |s| - i
  {
    forall k | 0 < k <= i ensures !PrefixOverflows(s, k) {
      PrefixValueMono(s, k, i);
    }
    if i == |s| {
      assert s[..i] == s;
    } else if !IsOctalDigit(s[i]) {
      forall k | i < k <= |s| ensures !PrefixOverflows(s, k) {
        assert s[..k][i] == s[i];
      }
    } else {
      var t := s[..i + 1];
      assert t[..i] == s[..i] && t[i] == s[i];
      assert AllDigitsBelow(t, 8);
      var n1 := n * 8 + DigitValue(s[i]);
      assert n1 == DigitsValue(t, 8);
      if n1 >= Uint32Limit {
        assert PrefixOverflows(s, i + 1);
        if AllDigitsBelow(s, 8) {
          assert s[..|s|] == s;
          PrefixValueMono(s, i + 1, |s|);
        }
      } else {
        ScanOctalSpec(s, i + 1, n1);
      }
    }
  }

  /** Reading more digits never lowers the value. */
  lemma {:induction false} PrefixValueMono(s: string, k: nat, i: nat)
    requires k <= i <= |s| && AllDigitsBelow(s[..i], 8)
    ensures AllDigitsBelow(s[..k], 8) && DigitsValue(s[..k], 8) <= DigitsValue(s[..i], 8)
    decreases i
  {
    if k < i {
      var t := s[..i];
      assert t[..i - 1] == s[..i - 1];
      PrefixValueMono(s, k, i - 1);
    }
  }

  /** Eleven octal sevens are 8^11 - 1, the first all-sevens value past 32 bits. */
  lemma ElevenSevens()
    ensures DigitsValue("77777777777", 8) == 8589934591
  {
    assert ToDigits(8589934591, 8) == "77777777777";
    ToDigitsValue(8589934591, 8);
  }

  /** A range error is reported at the digit that overflows, before a later bad character is seen. */
  lemma RangeBeforeSyntax()
    ensures ParseUintOctal32("77777777777x") == Err(ErrRange)
  {
    var s := "77777777777x";
    ElevenSevens();
    assert s[..11] == "77777777777";
    assert PrefixOverflows(s, 11);
  }

  /** `ParsePermissions`: the octal value of `perms`, or 0644 when it is empty or unparsable. */
  function ParsePermissions(perms: string): (r: nat)
    ensures r < Uint32Limit
    ensures perms == [] ==> r == DefaultPerms
    ensures (exists i :: 0 <= i < |perms| && !IsOctalDigit(perms[i])) ==> r == DefaultPerms
    ensures perms != [] && AllDigitsBelow(perms, 8) ==>
              r == if DigitsValue(perms, 8) < Uint32Limit then DigitsValue(perms, 8) else DefaultPerms
  {
    if perms == [] then DefaultPerms
    else
      match ParseUintOctal32(perms)
      case Err(_) => DefaultPerms
      case Ok(p) => p
  }

  /** `fmt.Sprintf("%04o", m)`: octal digits, padded with zeros to at least four. */
  function Format04o(m: nat): (r: string)
    ensures |r| >= 4 && AllDigitsBelow(r, 8)
    ensures m < 4096 ==> |r| == 4
  {
    var d := ToDigits(m, 8);
    OctalDigitsBound(m);
    if |d| < 4 then seq(4 - |d|, _ => '0') + d else d
  }

  lemma OctalDigitsBound(m: nat)
    ensures m < 8 ==> |ToDigits(m, 8)| == 1
    ensures m < 64 ==> |ToDigits(m, 8)| <= 2
    ensures m < 512 ==> |ToDigits(m, 8)| <= 3
    ensures m < 4096 ==> |ToDigits(m, 8)| <= 4
  {
    if m >= 8 {
      DivisionShrinks(m, 8);
      assert m < 64 ==> m / 8 < 8;
      assert m < 512 ==> m / 8 < 64;
      assert m < 4096 ==> m / 8 < 512;
      OctalDigitsBound(m / 8);
    }
  }

  /** The value read from a `%04o` rendering is the rendered number. */
  lemma Format04oValue(m: nat)
    ensures DigitsValue(Format04o(m), 8) == m
  {
    var d := ToDigits(m, 8);
    ToDigitsValue(m, 8);
    if |d| < 4 {
      LeadingZerosValue(4 - |d|, d, 8);
    }
  }

  /**
   * Round trip: parsing the `%04o` rendering of any 32-bit permission value
   * gives that value back; in particular every mode up to 0777.
   */
  lemma ParseFormatRoundTrip(m: nat)
    requires m < Uint32Limit
    ensures ParsePermissions(Format04o(m)) == m
  {
    Format04oValue(m);
  }

  /** Leading zeros do not matter: "0755" and "755" give the same value. */
  lemma LeadingZeroIgnored(perms: string)
    requires perms != []
    ensures ParsePermissions("0" + perms) == ParsePermissions(perms)
  {
    if AllDigitsBelow(perms, 8) {
      LeadingZeroValue(perms, 8);
    } else {
      var i :| 0 <= i < |perms| && !IsDigitBelow(perms[i], 8);
      assert ("0" + perms)[i + 1] == perms[i];
    }
  }

  lemma ThreeDigitValue(s: string)
    requires |s| == 3 && AllDigitsBelow(s, 8)
    ensures DigitsValue(s, 8) == 64 * DigitValue(s[0]) + 8 * DigitValue(s[1]) + DigitValue(s[2])
  {
    var a, b := s[..2], s[..1];
    assert a[..1] == b && b[..0] == [];
    assert a[1] == s[1] && b[0] == s[0];
    assert DigitsValue(b, 8) == DigitValue(s[0]);
    assert DigitsValue(a, 8) == 8 * DigitValue(s[0]) + DigitValue(s[1]);
  }

  /** The cases of the repository's table test. */
  lemma ParsePermissionsExamples()
    ensures ParsePermissions("755") == 493 && ParsePermissions("0755") == 493
    ensures ParsePermissions("777") == 511 && ParsePermissions("0777") == 511
    ensures ParsePermissions("600") == 384 && ParsePermissions("0600") == 384
  {
    ThreeDigitValue("755");
    ThreeDigitValue("777");
    ThreeDigitValue("600");
    LeadingZeroIgnored("755");
    LeadingZeroIgnored("777");
    LeadingZeroIgnored("600");
    assert "0" + "755" == "0755";
    assert "0" + "777" == "0777";
    assert "0" + "600" == "0600";
  }

  /** Strings `ParseUint` rejects fall back to 0644: empty, a sign, a `0o` prefix, an underscore, a digit 8. */
  lemma ParsePermissionsFallbacks()
    ensures ParsePermissions("") == DefaultPerms
    ensures ParsePermissions("+755") == DefaultPerms
    ensures ParsePermissions("0o755") == DefaultPerms
    ensures ParsePermissions("7_55") == DefaultPerms
    ensures ParsePermissions("0789") == DefaultPerms
  {
    assert !IsOctalDigit("+755"[0]);
    assert !IsOctalDigit("0o755"[1]);
    assert !IsOctalDigit("7_55"[1]);
    assert !IsOctalDigit("0789"[2]);
  }
}
