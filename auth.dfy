/**
 * Signed session cookies (src/lib/auth.ts). A cookie is
 * "authenticated:<milliseconds>.<signature>"; it is accepted when splitting on
 * "." gives exactly two parts and the second equals the signature of the first,
 * compared without an early exit.
 *
 * The HMAC-SHA256 signer is the parameter `sign` and the clock reading is
 * the parameter `now`.
 */
module Auth {

  const CookieName: string := "pgbl_auth"
  const MaxAge: nat := 60 * 60 * 24 * 7

  const PayloadPrefix: string := "authenticated:"

  // ---------------------------------------------------------------------
  // Splitting on a separator
  // ---------------------------------------------------------------------

  /** Number of occurrences of `c` in `s`. */
  function CountOf(s: string, c: char): nat {
    if s == [] then 0 else (if s[0] == c then 1 else 0) + CountOf(s[1..], c)
  }

  /**
   * String.prototype.split with a one-character separator: one more part than
   * there are separators, and no part contains the separator.
   */
  function Split(s: string, sep: char): (parts: seq<string>)
    ensures |parts| == CountOf(s, sep) + 1
    ensures forall k :: 0 <= k < |parts| ==> sep !in parts[k]
  {
    if s == [] then [""]
    else
      var rest := Split(s[1..], sep);
      if s[0] == sep then [""] + rest
      else [[s[0]] + rest[0]] + rest[1..]
  }

  /** Array.prototype.join with a one-character separator. */
  function Join(parts: seq<string>, sep: char): string
    requires |parts| >= 1
  {
    if |parts| == 1 then parts[0] else parts[0] + [sep] + Join(parts[1..], sep)
  }

  /** Splitting loses nothing: joining the parts back gives the original string. */
  lemma {:induction false} SplitThenJoin(s: string, sep: char)
    ensures Join(Split(s, sep), sep) == s
  {
    if s != [] {
      var rest := Split(s[1..], sep);
      SplitThenJoin(s[1..], sep);
      if s[0] == sep {
        assert Split(s, sep)[1..] == rest;
        assert s == [sep] + s[1..];
      } else if |rest| == 1 {
        assert s == [s[0]] + s[1..];
      } else {
        var parts := Split(s, sep);
        assert parts[1..] == rest[1..];
        assert Join(rest, sep) == rest[0] + [sep] + Join(rest[1..], sep);
        assert s == [s[0]] + s[1..];
      }
    }
  }

  /** A string without the separator splits into itself alone. */
  lemma {:induction false} SplitWithoutSeparator(s: string, sep: char)
    requires sep !in s
    ensures Split(s, sep) == [s]
  {
    if s != [] {
      assert sep !in s[1..];
      SplitWithoutSeparator(s[1..], sep);
      assert [s[0]] + s[1..] == s;
    }
  }

  /** Two separator-free strings joined by the separator split back into exactly those two. */
  lemma {:induction false} SplitAroundSeparator(a: string, b: string, sep: char)
    requires sep !in a && sep !in b
    ensures Split(a + [sep] + b, sep) == [a, b]
  {
    if a == [] {
      assert a + [sep] + b == [sep] + b;
      SplitWithoutSeparator(b, sep);
    } else {
      assert (a + [sep] + b)[1..] == a[1..] + [sep] + b;
      assert sep !in a[1..];
      SplitAroundSeparator(a[1..], b, sep);
      assert [a[0]] + a[1..] == a;
    }
  }

  // ---------------------------------------------------------------------
  // Creating a cookie
  // ---------------------------------------------------------------------

  function DigitChar(d: nat): (c: char)
    requires d < 10
    ensures '0' <= c <= '9'
  {
    ('0' as int + d) as char
  }

  /** The decimal text of a natural number, as a template literal prints it. */
  function DecimalDigits(n: nat): (s: string)
    ensures |s| >= 1
    ensures forall k :: 0 <= k < |s| ==> '0' <= s[k] <= '9'
  {
    if n < 10 then [DigitChar(n)] else DecimalDigits(n / 10) + [DigitChar(n % 10)]
  }

  /** The number a string of decimal digits denotes. */
  function DecimalValue(s: string): nat
    requires forall k :: 0 <= k < |s| ==> '0' <= s[k] <= '9'
  {
    if s == [] then 0 else 10 * DecimalValue(s[..|s| - 1]) + (s[|s| - 1] as int - '0' as int)
  }

  /** The printed timestamp reads back as the same number. */
  lemma {:induction false} DecimalDigitsRoundTrip(n: nat)
    ensures DecimalValue(DecimalDigits(n)) == n
  {
    if n >= 10 {
      var s := DecimalDigits(n);
      DecimalDigitsRoundTrip(n / 10);
      assert s[..|s| - 1] == DecimalDigits(n / 10);
    }
  }

  /** A lower-case hexadecimal string, as Hmac.digest("hex") produces. */
  predicate IsHexDigest(s: string) {
    forall k :: 0 <= k < |s| ==> s[k] in "0123456789abcdef"
  }

  /** The payload signed at time `now` (milliseconds since the epoch). */
  function Payload(now: nat): (p: string)
    ensures '.' !in p
  {
    var digits := DecimalDigits(now);
    assert forall k :: 0 <= k < |digits| ==> digits[k] != '.';
    PayloadPrefix + digits
  }

  /** The cookie value issued at time `now`: payload, ".", signature of the payload. */
  function CreateAuthCookie(sign: string -> string, now: nat): (cookie: string)
    ensures cookie == Payload(now) + "." + sign(Payload(now))
    ensures '.' !in sign(Payload(now)) ==> Split(cookie, '.') == [Payload(now), sign(Payload(now))]
  {
    var payload := Payload(now);
    var signature := sign(payload);
    var cookie := payload + "." + signature;
    assert '.' !in signature ==> Split(cookie, '.') == [payload, signature] by {
      if '.' !in signature {
        assert cookie == payload + ['.'] + signature;
        SplitAroundSeparator(payload, signature, '.');
      }
    }
    cookie
  }

  // ---------------------------------------------------------------------
  // Verifying a cookie
  // ---------------------------------------------------------------------

  /** What verification accepts: exactly two dot-separated parts, the second the signature of the first. */
  predicate AcceptsCookie(sign: string -> string, cookieValue: string) {
    var parts := Split(cookieValue, '.');
    |parts| == 2 && parts[1] == sign(parts[0])
  }

  /**
   * JavaScript's charCodeAt on one character. Every code is non-negative and,
   * for the characters a signature holds, well below 2^31, so the 32-bit
   * bitwise operators below act on it as on a natural number.
   */
  function CharCode(c: char): nat {
    c as int
  }

  /** Bitwise exclusive or of two natural numbers, bit by bit from the lowest. */
  function BitXor(x: nat, y: nat): nat
    decreases x + y
  {
    if x == 0 && y == 0 then 0
    else 2 * BitXor(x / 2, y / 2) + (if x % 2 == y % 2 then 0 else 1)
  }

  /** Bitwise inclusive or of two natural numbers, bit by bit from the lowest. */
  function BitOr(x: nat, y: nat): nat
    decreases x + y
  {
    if x == 0 && y == 0 then 0
    else 2 * BitOr(x / 2, y / 2) + (if x % 2 == 1 || y % 2 == 1 then 1 else 0)
  }

  /** Two numbers XOR to zero exactly when they are equal. */
  lemma {:induction false} XorIsZero(x: nat, y: nat)
    ensures BitXor(x, y) == 0 <==> x == y
    decreases x + y
  {
    if x != 0 || y != 0 {
      XorIsZero(x / 2, y / 2);
    }
  }

  /** An OR is zero exactly when both operands are. */
  lemma {:induction false} OrIsZero(m: nat, t: nat)
    ensures BitOr(m, t) == 0 <==> m == 0 && t == 0
    decreases m + t
  {
    if m != 0 || t != 0 {
      OrIsZero(m / 2, t / 2);
    }
  }

  /** Checks a cookie value, comparing every character of the signature with no early exit. */
  method VerifyAuthCookie(sign: string -> string, cookieValue: string) returns (ok: bool)
    ensures ok == AcceptsCookie(sign, cookieValue)
    ensures ok ==> CountOf(cookieValue, '.') == 1
    ensures |Split(cookieValue, '.')| == 2 && |sign(Split(cookieValue, '.')[0])| != |Split(cookieValue, '.')[1]| ==> !ok
  {
    var parts := Split(cookieValue, '.');
    if |parts| != 2 {
      return false;
    }
    var payload, signature := parts[0], parts[1];
    var expected := sign(payload);
    if |expected| != |signature| {
      return false;
    }
    var mismatch: nat := 0;
    for i := 0 to |expected|
      invariant mismatch == 0 <==> forall k :: 0 <= k < i ==> expected[k] == signature[k]
    {
      var diff := BitXor(CharCode(expected[i]), CharCode(signature[i]));
      OrIsZero(mismatch, diff);
      XorIsZero(CharCode(expected[i]), CharCode(signature[i]));
      mismatch := BitOr(mismatch, diff);
    }
    assert mismatch == 0 <==> expected == signature;
    return mismatch == 0;
  }

  /**
   * A freshly created cookie verifies, provided the signer returns
   * hexadecimal text (which never contains ".").
   */
  lemma CreatedCookieVerifies(sign: string -> string, now: nat)
    requires forall p :: IsHexDigest(sign(p))
    ensures AcceptsCookie(sign, CreateAuthCookie(sign, now))
  {
    var signature := sign(Payload(now));
    assert IsHexDigest(signature);
    assert '.' !in signature;
  }
}
