/**
 * Replication positions (the `mysql.Position` type the streamer relies on).
 *
 * A position is modelled as a transaction counter with a canonical decimal text
 * form: the zero position encodes as "" and "" decodes to it, every other
 * position encodes as its counter without leading zeros. What the streamer
 * relies on is stated as lemmas: DecodeEncode (decoding an encoding gives the
 * position back), EncodeDecode (encoding a decoded canonical text gives the text
 * back) and EncodeInjective.
 */
module Mysql {
  import opened Wrappers

  datatype Position = Position(seqno: nat)

  /** The zero value `mysql.Position{}`. */
  const Zero: Position := Position(0)

  predicate IsZero(p: Position) { p.seqno == 0 }

  predicate Equal(a: Position, b: Position) { a.seqno == b.seqno }

  /** `a.AtLeast(b)`: everything `b` has seen, `a` has seen too. */
  predicate AtLeast(a: Position, b: Position) { a.seqno >= b.seqno }

  predicate IsDigit(c: char) { '0' <= c <= '9' }

  function DigitChar(d: nat): (c: char)
    requires d < 10
    ensures IsDigit(c) && DigitValue(c) == d
  {
    ('0' as int + d) as char
  }

  function DigitValue(c: char): nat
    requires IsDigit(c)
  {
    c as int - '0' as int
  }

  predicate AllDigits(s: string) { forall i :: 0 <= i < |s| ==> IsDigit(s[i]) }

  /** A non-empty digit string without a leading zero. */
  predicate Canonical(s: string) { |s| > 0 && AllDigits(s) && s[0] != '0' }

  /** The decimal digits of a positive number, most significant first. */
  function Decimal(n: nat): string
    requires n > 0
  {
    (if n < 10 then "" else Decimal(n / 10)) + [DigitChar(n % 10)]
  }

  /** The number a digit string denotes. */
  function ValueOf(s: string): nat
    requires AllDigits(s)
  {
    if |s| == 0 then 0 else ValueOf(s[..|s| - 1]) * 10 + DigitValue(s[|s| - 1])
  }

  function EncodePosition(p: Position): string
  {
    if p.seqno == 0 then "" else Decimal(p.seqno)
  }

  /** None stands for the decoding error. */
  function DecodePosition(s: string): Option<Position>
  {
    if s == "" then Some(Zero)
    else if Canonical(s) then Some(Position(ValueOf(s)))
    else None
  }

  /** `pos, _ := mysql.DecodePosition(s)`: a decoding error leaves the zero position. */
  function DecodeOrZero(s: string): (p: Position)
    ensures DecodePosition(s).Some? ==> p == DecodePosition(s).value
    ensures DecodePosition(s).None? ==> IsZero(p)
  {
    match DecodePosition(s)
    case Some(q) => q
    case None => Zero
  }

  lemma {:induction false} DecimalIsCanonical(n: nat)
    requires n > 0
    ensures Canonical(Decimal(n)) && ValueOf(Decimal(n)) == n
  {
    if n < 10 {
      assert Decimal(n) == [DigitChar(n % 10)];
    } else {
      var q, r := n / 10, n % 10;
      DecimalIsCanonical(q);
      var pre := Decimal(q);
      var s := pre + [DigitChar(r)];
      assert Decimal(n) == s;
      assert s[..|s| - 1] == pre;
      assert ValueOf(s) == ValueOf(pre) * 10 + r;
      assert n == q * 10 + r;
      assert s[0] == pre[0];
    }
  }

  lemma {:induction false} CanonicalValue(s: string)
    requires Canonical(s)
    ensures ValueOf(s) > 0
    ensures |s| == 1 <==> ValueOf(s) < 10
  {
    if |s| > 1 {
      var pre := s[..|s| - 1];
      assert pre[0] == s[0];
      CanonicalValue(pre);
    }
  }

  lemma DivideByTen(a: nat, d: nat)
    requires d < 10
    ensures (a * 10 + d) / 10 == a && (a * 10 + d) % 10 == d
  {
  }

  /** The last digit of a canonical text is its value modulo ten, the rest its quotient. */
  lemma LastDigit(s: string)
    requires Canonical(s) && |s| > 1
    ensures Canonical(s[..|s| - 1])
    ensures ValueOf(s) >= 10
    ensures ValueOf(s) / 10 == ValueOf(s[..|s| - 1])
    ensures DigitChar(ValueOf(s) % 10) == s[|s| - 1]
  {
    var pre := s[..|s| - 1];
    assert pre[0] == s[0];
    CanonicalValue(s);
    DivideByTen(ValueOf(pre), DigitValue(s[|s| - 1]));
  }

  lemma {:induction false} CanonicalDecimal(s: string)
    requires Canonical(s)
    ensures ValueOf(s) > 0
    ensures Decimal(ValueOf(s)) == s
  {
    CanonicalValue(s);
    if |s| > 1 {
      var pre := s[..|s| - 1];
      LastDigit(s);
      CanonicalDecimal(pre);
      assert s == pre + [s[|s| - 1]];
    }
  }

  /** Encoding a position and decoding the text gives the position back. */
  lemma DecodeEncode(p: Position)
    ensures DecodePosition(EncodePosition(p)) == Some(p)
  {
    if p.seqno > 0 {
      DecimalIsCanonical(p.seqno);
    }
  }

  /** A text that decodes is the encoding of what it decodes to. */
  lemma EncodeDecode(s: string, p: Position)
    requires DecodePosition(s) == Some(p)
    ensures EncodePosition(p) == s
  {
    if s != "" {
      CanonicalDecimal(s);
      CanonicalValue(s);
    }
  }

  /** Two positions with the same encoding are the same position. */
  lemma EncodeInjective(a: Position, b: Position)
    requires EncodePosition(a) == EncodePosition(b)
    ensures a == b
  {
    DecodeEncode(a);
    DecodeEncode(b);
  }
}
