/** Go's int64 with its wrap-around and truncating division, decimal printing, and the
    two result types every other module uses. */
module Common {
  datatype Option<+T> = None | Some(value: T)
  datatype Result<+T, +E> = Ok(value: T) | Err(error: E)

  const MAX_INT64: int := 0x7fff_ffff_ffff_ffff
  const MIN_INT64: int := -0x8000_0000_0000_0000
  const MAX_INT32: int := 0x7fff_ffff
  const TWO_64: int := 0x1_0000_0000_0000_0000

  type int64 = x: int | MIN_INT64 <= x <= MAX_INT64

  /** What a Go int64 holds after an addition or multiplication whose exact value is x. */
  function Wrap(x: int): (r: int64)
    ensures MIN_INT64 <= x <= MAX_INT64 ==> r == x
    ensures (x - r) % TWO_64 == 0
  {
    var low := x % TWO_64;
    if low > MAX_INT64 then low - TWO_64 else low
  }

  /** Go's quotient for a positive divisor: rounds toward zero. */
  function TruncDiv(a: int, b: int): int
    requires b > 0
  {
    if a >= 0 then a / b else -((-a) / b)
  }

  function Max(a: int, b: int): int { if a >= b then a else b }

  function Min(a: int, b: int): int { if a <= b then a else b }

  function Rev<T>(s: seq<T>): (r: seq<T>)
    ensures |r| == |s| && forall i :: 0 <= i < |s| ==> r[i] == s[|s| - 1 - i]
  {
    if s == [] then [] else Rev(s[1..]) + [s[0]]
  }

  // ---------- decimal printing (strconv.Itoa, %d) ----------

  function Digit(d: nat): (c: char)
    requires d < 10
    ensures '0' <= c <= '9'
  {
    ('0' as int + d) as char
  }

  function NatToString(n: nat): (s: string)
    ensures |s| > 0
    ensures |s| == 1 <==> n < 10
    ensures forall c | c in s :: '0' <= c <= '9'
  {
    if n < 10 then [Digit(n)] else NatToString(n / 10) + [Digit(n % 10)]
  }

  function Itoa(n: int): (s: string)
    ensures |s| > 0
    ensures s[0] == '-' <==> n < 0
  {
    if n >= 0 then
      var s := NatToString(n);
      assert s[0] in s;
      s
    else "-" + NatToString(-n)
  }

  lemma {:induction false} NatToStringInjective(a: nat, b: nat)
    requires NatToString(a) == NatToString(b)
    ensures a == b
  {
    if a >= 10 {
      var x, y := NatToString(a / 10), NatToString(b / 10);
      assert |x| == |y|;
      assert x == (x + [Digit(a % 10)])[..|x|] == (y + [Digit(b % 10)])[..|y|] == y;
      assert (x + [Digit(a % 10)])[|x|] == (y + [Digit(b % 10)])[|y|];
      NatToStringInjective(a / 10, b / 10);
    }
  }

  lemma ItoaInjective(a: int, b: int)
    requires Itoa(a) == Itoa(b)
    ensures a == b
  {
    if a >= 0 {
      NatToStringInjective(a, b);
    } else {
      assert NatToString(-a) == Itoa(a)[1..] == Itoa(b)[1..] == NatToString(-b);
      NatToStringInjective(-a, -b);
    }
  }

  lemma ItoaChars(n: int)
    ensures forall c | c in Itoa(n) :: c == '-' || '0' <= c <= '9'
  {
    if n < 0 {
      forall c | c in Itoa(n) ensures c == '-' || '0' <= c <= '9' {
        assert c == '-' || c in NatToString(-n);
      }
    }
  }

  /** Two strings that agree after appending separator-free tails behind a separator agree in both parts. */
  lemma {:induction false} SplitAtLast(a: string, x: string, b: string, y: string, sep: char)
    requires a + [sep] + x == b + [sep] + y
    requires sep !in x && sep !in y
    ensures a == b && x == y
  {
    var s := a + [sep] + x;
    var t := b + [sep] + y;
    assert s[|a|] == sep && t[|b|] == sep;
    forall k | |a| < k < |s| ensures s[k] != sep {
      assert s[k] == x[k - |a| - 1];
    }
    forall k | |b| < k < |t| ensures t[k] != sep {
      assert t[k] == y[k - |b| - 1];
    }
    assert a == s[..|a|] && b == t[..|b|];
    assert x == s[|a| + 1..] && y == t[|b| + 1..];
  }
}
