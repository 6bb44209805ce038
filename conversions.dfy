/**
 * The Python built-ins the door-lock scripts use to move between text,
 * integers and bytes: `int(text)`, `str(n)` and `n.to_bytes(len, 'big')`.
 */
module Conversions {
  import opened Wrappers

  /** One octet written to a serial port. */
  type Byte = b: int | 0 <= b < 256

  predicate IsDigit(ch: char) {
    '0' <= ch <= '9'
  }

  predicate AllDigits(s: string) {
    forall i :: 0 <= i < |s| ==> IsDigit(s[i])
  }

  function DigitValue(ch: char): (d: nat)
    requires IsDigit(ch)
    ensures d < 10
  {
    ch as int - '0' as int
  }

  function DigitChar(d: nat): (ch: char)
    requires d < 10
    ensures IsDigit(ch) && DigitValue(ch) == d
  {
    ('0' as int + d) as char
  }

  /** The value of a string of decimal digits, most significant first. */
  function DigitsValue(s: string): nat
    requires AllDigits(s)
    decreases |s|
  {
    if s == [] then 0 else 10 * DigitsValue(s[..|s| - 1]) + DigitValue(s[|s| - 1])
  }

  /**
   * `int(s)` on a string of ASCII decimal digits. Python raises
   * `ValueError` on anything else, including the empty string; that is `None` here.
   */
  function ParseDecimal(s: string): (r: Option<nat>)
    ensures r.Some? <==> s != [] && AllDigits(s)
  {
    if s != [] && AllDigits(s) then Some(DigitsValue(s)) else None
  }

  /** `str(n)` for a natural number: its decimal digits without leading zeros. */
  function ShowNat(n: nat): (s: string)
    ensures s != [] && AllDigits(s)
    ensures s[0] == '0' ==> n == 0
    decreases n
  {
    if n < 10 then [DigitChar(n)] else ShowNat(n / 10) + [DigitChar(n % 10)]
  }

  /** `str(n)` for any integer: a minus sign for a negative one, then the decimal digits of its magnitude. */
  function ShowInt(n: int): (s: string)
    ensures s != []
    ensures 0 <= n < 10 ==> s == [DigitChar(n)]
    ensures n >= 0 ==> ParseDecimal(s) == Some(n)
    ensures n < 0 ==> s[0] == '-' && ParseDecimal(s[1..]) == Some(-n)
  {
    if n < 0 then
      ParseShowNat(-n);
      assert ("-" + ShowNat(-n))[1..] == ShowNat(-n);
      "-" + ShowNat(-n)
    else
      ParseShowNat(n);
      ShowNat(n)
  }

  /** Printing a number in decimal and parsing it back gives the number. */
  lemma {:induction false} ParseShowNat(n: nat)
    ensures ParseDecimal(ShowNat(n)) == Some(n)
    decreases n
  {
    if n >= 10 {
      ParseShowNat(n / 10);
      var s := ShowNat(n / 10);
      var t := s + [DigitChar(n % 10)];
      assert ShowNat(n) == t;
      assert t[..|t| - 1] == s;
      assert DigitsValue(s) == n / 10;
      assert DigitsValue(t) == 10 * (n / 10) + n % 10 == n;
      assert ParseDecimal(t) == Some(DigitsValue(t));
    } else {
      var t := ShowNat(n);
      assert t == [DigitChar(n)] && t[..0] == [];
      assert DigitsValue(t) == 10 * DigitsValue([]) + DigitValue(DigitChar(n)) == n;
    }
  }

  function Pow256(len: nat): (p: nat)
    ensures p >= 1
  {
    if len == 0 then 1 else 256 * Pow256(len - 1)
  }

  /** The number whose big-endian base-256 digits are `bs`. */
  function FromBytesBE(bs: seq<Byte>): (n: nat)
    ensures n < Pow256(|bs|)
    decreases |bs|
  {
    if bs == [] then 0 else 256 * FromBytesBE(bs[..|bs| - 1]) + bs[|bs| - 1]
  }

  /** The `len` big-endian bytes of `n`, which must fit in them. */
  function EncodeBE(n: nat, len: nat): (bs: seq<Byte>)
    requires n < Pow256(len)
    ensures |bs| == len && FromBytesBE(bs) == n
    decreases len
  {
    if len == 0 then []
    else
      var rest := EncodeBE(n / 256, len - 1);
      var bs := rest + [n % 256];
      assert bs[..|bs| - 1] == rest;
      bs
  }

  /**
   * `n.to_bytes(len, byteorder = 'big')`: Python raises `OverflowError`
   * when `n` is negative or needs more than `len` bytes; that is `None` here.
   */
  function ToBytesBE(n: int, len: nat): (r: Option<seq<Byte>>)
    ensures r.Some? <==> 0 <= n < Pow256(len)
    ensures r.Some? ==> |r.value| == len && FromBytesBE(r.value) == n
  {
    if 0 <= n < Pow256(len) then Some(EncodeBE(n, len)) else None
  }

  /** A one-byte encoding is the value itself. */
  lemma OneByte(n: int)
    requires 0 <= n < 256
    ensures ToBytesBE(n, 1) == Some([n])
  {
    var bs := EncodeBE(n, 1);
    assert bs[..0] == [];
  }
}
