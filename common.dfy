/** Small shared vocabulary: optional values, results that carry an error
    message (the model's stand-in for a raised Python exception), and the
    string operations the services use (`in`, `startswith`, `str(int)`). */
module Common {

  datatype Option<+T> = None | Some(value: T)

  /** `Err(msg)` stands for an exception whose `str(e)` is `msg`. */
  datatype Result<+T> = Ok(value: T) | Err(msg: string)

  /** Python's `p in s` for strings: `p` occurs in `s` at position `i`. */
  predicate OccursAt(s: string, p: string, i: int)
  {
    0 <= i && i + |p| <= |s| && s[i..i + |p|] == p
  }

  /** Python's `p in s` for strings. */
  predicate Contains(s: string, p: string)
  {
    exists i | 0 <= i <= |s| :: OccursAt(s, p, i)
  }

  /** Python's `s.startswith(p)`. */
  predicate StartsWith(s: string, p: string)
  {
    |p| <= |s| && s[..|p|] == p
  }

  function DigitChar(d: nat): (c: char)
    requires d < 10
    ensures '0' <= c <= '9'
    ensures c as int - '0' as int == d
  {
    ('0' as int + d) as char
  }

  /** Python's `str(n)` for a non-negative integer: its decimal digits,
      without leading zeros. */
  function NatToString(n: nat): (s: string)
    ensures |s| >= 1
    ensures forall k :: 0 <= k < |s| ==> '0' <= s[k] <= '9'
    ensures n >= 10 ==> s[0] != '0'
    ensures n < 10 <==> |s| == 1
  {
    if n < 10 then [DigitChar(n)] else NatToString(n / 10) + [DigitChar(n % 10)]
  }

  /** The last digit of `str(n)`, and what precedes it. */
  lemma LastDigit(n: nat)
    requires n >= 10
    ensures var s := NatToString(n);
      s[|s| - 1] == DigitChar(n % 10) && s[..|s| - 1] == NatToString(n / 10)
  {
    var p := NatToString(n / 10);
    assert NatToString(n) == p + [DigitChar(n % 10)];
    assert (p + [DigitChar(n % 10)])[..|p|] == p;
  }

  /** Different numbers have different decimal forms. */
  lemma {:induction false} NatToStringInjective(a: nat, b: nat)
    requires a != b
    ensures NatToString(a) != NatToString(b)
  {
    if a >= 10 && b >= 10 {
      LastDigit(a);
      LastDigit(b);
      if a % 10 == b % 10 {
        assert a / 10 != b / 10;
        NatToStringInjective(a / 10, b / 10);
      } else {
        assert DigitChar(a % 10) != DigitChar(b % 10);
      }
    } else if a < 10 && b < 10 {
      assert NatToString(a)[0] == DigitChar(a) && NatToString(b)[0] == DigitChar(b);
    }
  }

  function MinR(a: real, b: real): (m: real)
    ensures m <= a && m <= b && (m == a || m == b)
  {
    if a <= b then a else b
  }

  function MaxR(a: real, b: real): (m: real)
    ensures m >= a && m >= b && (m == a || m == b)
  {
    if a >= b then a else b
  }

  /** `min` on counts and indices (`min(clip_count * 3, len(energies))`,
      a slice bound); kept apart from `MinR`, which is `min` on seconds,
      because Dafny has no common type for the two. */
  function Min(a: int, b: int): (m: int)
    ensures m <= a && m <= b && (m == a || m == b)
  {
    if a <= b then a else b
  }
}
