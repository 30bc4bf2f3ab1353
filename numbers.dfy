/**
 * JavaScript number coercion as the controllers use it: `Number(s)` on a
 * quantity string and the `isNumber` check of the base controller. Values
 * are exact reals; NaN is kept as its own value because it propagates
 * through the totals.
 */
module Numbers {
  import opened Wrappers

  datatype Num = Finite(value: real) | NaN

  /** JavaScript `+` on numbers: NaN absorbs. */
  function Add(a: Num, b: Num): (r: Num)
    ensures r.Finite? <==> a.Finite? && b.Finite?
    ensures r.Finite? ==> r.value == a.value + b.value
  {
    if a.Finite? && b.Finite? then Finite(a.value + b.value) else NaN
  }

  /** JavaScript `*` on numbers: NaN absorbs. */
  function Mul(a: Num, b: Num): (r: Num)
    ensures r.Finite? <==> a.Finite? && b.Finite?
    ensures r.Finite? ==> r.value == a.value * b.value
  {
    if a.Finite? && b.Finite? then Finite(a.value * b.value) else NaN
  }

  predicate IsDigit(c: char) { '0' <= c <= '9' }

  /**
   * Reads digits and at most one decimal point, left to right: `digits`
   * counts the digits read, `v` is the value so far and `unit` the weight of
   * the next digit after the point. Fails on any other character and when no
   * digit was read: "12", "12.5", ".5" and "12." are numbers, "." and "1.2.3" are not.
   */
  function ScanDecimal(s: string, digits: nat, v: real, unit: real, seenPoint: bool): Option<real>
    decreases |s|
  {
    if s == [] then (if digits > 0 then Some(v) else None)
    else if IsDigit(s[0]) then
      var d := (s[0] as int - '0' as int) as real;
      if seenPoint then ScanDecimal(s[1..], digits + 1, v + d * unit, unit / 10.0, true)
      else ScanDecimal(s[1..], digits + 1, v * 10.0 + d, unit, false)
    else if s[0] == '.' && !seenPoint then ScanDecimal(s[1..], digits, v, unit, true)
    else None
  }

  function ParseUnsigned(s: string): Option<real>
  {
    ScanDecimal(s, 0, 0.0, 0.1, false)
  }

  /** An optionally signed decimal literal. */
  function ParseDecimal(s: string): (r: Option<real>)
    ensures r.Some? ==> s != ""
  {
    if s != [] && s[0] == '-' then
      match ParseUnsigned(s[1..])
      case Some(v) => Some(-v)
      case None => None
    else if s != [] && s[0] == '+' then ParseUnsigned(s[1..])
    else ParseUnsigned(s)
  }

  lemma {:induction false} ScanReadsADigit(s: string, digits: nat, v: real, unit: real, seenPoint: bool)
    requires ScanDecimal(s, digits, v, unit, seenPoint).Some?
    ensures digits > 0 || exists k :: 0 <= k < |s| && IsDigit(s[k])
    decreases |s|
  {
    if s != [] && (IsDigit(s[0]) || s[0] == '.') {
      if IsDigit(s[0]) {
      } else {
        ScanReadsADigit(s[1..], digits, v, unit, true);
        if digits == 0 {
          var k :| 0 <= k < |s[1..]| && IsDigit(s[1..][k]);
          assert IsDigit(s[k + 1]);
        }
      }
    }
  }

  lemma ParsedHasDigit(s: string)
    requires ParseDecimal(s).Some?
    ensures exists k :: 0 <= k < |s| && IsDigit(s[k])
  {
    if s[0] == '-' || s[0] == '+' {
      ScanReadsADigit(s[1..], 0, 0.0, 0.1, false);
      var k :| 0 <= k < |s[1..]| && IsDigit(s[1..][k]);
      assert IsDigit(s[k + 1]);
    } else {
      ScanReadsADigit(s, 0, 0.0, 0.1, false);
    }
  }

  /** `isNumber`: `parseFloat` succeeds and the whole value is finite. A number is never empty and holds a digit. */
  function IsNumber(s: string): (r: bool)
    ensures r ==> s != ""
    ensures r ==> exists k :: 0 <= k < |s| && IsDigit(s[k])
  {
    if ParseDecimal(s).Some? then ParsedHasDigit(s); true else false
  }

  /** `Number(s)`: the empty string is 0, a decimal literal its value, anything else NaN. */
  function ToNumber(s: string): (r: Num)
    ensures s == "" ==> r == Finite(0.0)
  {
    if s == "" then Finite(0.0)
    else match ParseDecimal(s)
      case Some(v) => Finite(v)
      case None => NaN
  }

  /** `isNumber` and `Number` agree: a string is numeric exactly when it is non-empty and converts to a finite value. */
  lemma IsNumberAgreesWithToNumber(s: string)
    ensures IsNumber(s) <==> s != "" && ToNumber(s).Finite?
    ensures IsNumber(s) ==> ToNumber(s) == Finite(ParseDecimal(s).value)
  {
  }

  /** The empty string is "missing", never numeric. */
  lemma EmptyIsNotNumber()
    ensures !IsNumber("")
  {
  }

  /** The zero forms the controllers write and read back all stand for 0. */
  lemma ZeroForms()
    ensures IsNumber("0") && ToNumber("0") == Finite(0.0)
    ensures IsNumber("0.000") && ToNumber("0.000") == Finite(0.0)
  {
    assert "0"[1..] == "";
    assert ParseUnsigned("0") == Some(0.0);
    var z := "0.000";
    assert z[1..] == ".000" && z[1..][1..] == "000" && z[1..][1..][1..] == "00";
    assert z[1..][1..][1..][1..] == "0" && z[1..][1..][1..][1..][1..] == "";
    assert ScanDecimal("0", 3, 0.0, 0.001, true) == Some(0.0);
    assert ScanDecimal("00", 2, 0.0, 0.01, true) == Some(0.0);
    assert ScanDecimal("000", 1, 0.0, 0.1, true) == Some(0.0);
    assert ParseUnsigned(z) == Some(0.0);
  }
}
