/** EncodeBase58 and DecodeBase58 (internal/solana/base58.go) over strings and bytes. */
module Base58Codec {
  import opened Common
  import opened Base58

  const ALPHABET := "123456789" + "ABCDEFGH" + "JKLMN" + "PQRSTUVWXYZ" + "abcdefghijk" + "mnopqrstuvwxyz"

  datatype DecodeError = Empty | Whitespace | BadCharacter(c: char) | TooLong | NonCanonical

  // ---------- the alphabet ----------

  /** The alphabet by its runs of consecutive letters. */
  function Letter(d: nat): (c: char)
    requires d < 58
    ensures c == ALPHABET[d]
  {
    if d < 9 then '1' + d as char
    else if d < 17 then 'A' + (d - 9) as char
    else if d < 22 then 'J' + (d - 17) as char
    else if d < 33 then 'P' + (d - 22) as char
    else if d < 44 then 'a' + (d - 33) as char
    else 'm' + (d - 44) as char
  }

  /** decodeMap, the same way. */
  function DigitOf(c: char): (d: Option<nat>)
    ensures d.Some? ==> d.value < 58 && Letter(d.value) == c
  {
    if '1' <= c <= '9' then Some(c as int - '1' as int)
    else if 'A' <= c <= 'H' then Some(c as int - 'A' as int + 9)
    else if 'J' <= c <= 'N' then Some(c as int - 'J' as int + 17)
    else if 'P' <= c <= 'Z' then Some(c as int - 'P' as int + 22)
    else if 'a' <= c <= 'k' then Some(c as int - 'a' as int + 33)
    else if 'm' <= c <= 'z' then Some(c as int - 'm' as int + 44)
    else None
  }

  lemma LetterDigit(d: nat)
    requires d < 58
    ensures DigitOf(Letter(d)) == Some(d)
  {}

  predicate Valid(s: string) {
    forall i :: 0 <= i < |s| ==> DigitOf(s[i]).Some?
  }

  function Indices(s: string): (x: seq<nat>)
    requires Valid(s)
    ensures |x| == |s| && InBase(58, x) && forall i :: 0 <= i < |s| ==> Letter(x[i]) == s[i] && DigitOf(s[i]) == Some(x[i])
  {
    seq(|s|, i requires 0 <= i < |s| => DigitOf(s[i]).value)
  }

  function Text(x: seq<nat>): (s: string)
    requires InBase(58, x)
    ensures |s| == |x| && forall i :: 0 <= i < |x| ==> s[i] == Letter(x[i])
  {
    seq(|x|, i requires 0 <= i < |x| => Letter(x[i]))
  }

  lemma TextIndices(x: seq<nat>)
    requires InBase(58, x)
    ensures Valid(Text(x)) && Indices(Text(x)) == x
  {
    forall i | 0 <= i < |x| ensures DigitOf(Text(x)[i]) == Some(x[i]) {
      LetterDigit(x[i]);
    }
  }

  lemma IndicesText(s: string)
    requires Valid(s)
    ensures Text(Indices(s)) == s
  {}

  // ---------- what the two functions compute ----------

  function Encode(b: seq<nat>): string {
    Text(Convert(256, 58, b))
  }

  predicate IsSpace(c: char) {
    c in [' ', '\t', '\n', 11 as char, 12 as char, '\r', 0x85 as char, 0xa0 as char]
  }

  predicate Trimmed(s: string) {
    s != "" ==> !IsSpace(s[0]) && !IsSpace(s[|s| - 1])
  }

  function LeadingOnes(s: string): (z: nat)
    ensures z <= |s| && (forall i :: 0 <= i < z ==> s[i] == '1') && (z < |s| ==> s[z] != '1')
  {
    if s == "" || s[0] != '1' then 0 else 1 + LeadingOnes(s[1..])
  }

  /** Going from v to v' appends bytes and passes the limit. */
  predicate Outgrows(v: nat, v': nat, zeros: nat, max: int) {
    max > 0 && |Digits(256, v')| > |Digits(256, v)| && |Digits(256, v')| + zeros > max
  }

  /** The accumulator after the characters of s, or the first error. */
  function Scan(s: string, zeros: nat, max: int): Result<nat, DecodeError> {
    if s == "" then Ok(0)
    else
      match Scan(s[..|s| - 1], zeros, max)
      case Err(e) => Err(e)
      case Ok(v) =>
        var c := s[|s| - 1];
        match DigitOf(c)
        case None => Err(BadCharacter(c))
        case Some(d) => if Outgrows(v, 58 * v + d, zeros, max) then Err(TooLong) else Ok(58 * v + d)
  }

  function Decode(s: string, max: int): Result<seq<nat>, DecodeError> {
    if s == "" then Err(Empty)
    else if !Trimmed(s) then Err(Whitespace)
    else
      match Scan(s, LeadingOnes(s), max)
      case Err(e) => Err(e)
      case Ok(v) =>
        var decoded := Zeros(LeadingOnes(s)) + Rev(Digits(256, v));
        if max > 0 && |decoded| > max then Err(TooLong)
        else if Encode(decoded) != s then Err(NonCanonical)
        else Ok(decoded)
  }

  // ---------- the codec's laws ----------

  /** The bytes a valid string stands for, whatever the limit. */
  function Bytes(s: string): seq<nat>
    requires Valid(s)
  {
    Convert(58, 256, Indices(s))
  }

  lemma {:induction false} OnesAreZeros(s: string)
    requires Valid(s)
    ensures LeadingOnes(s) == LeadingZeros(Indices(s))
  {
    LeadingZerosIs(Indices(s), LeadingOnes(s));
  }

  lemma {:induction false} QuotMonotone(a: nat, b: nat, k: nat)
    requires k >= 2 && a <= b
    ensures Quot(a, k) <= Quot(b, k)
  {
    if a >= k { QuotMonotone(a - k, b - k, k); }
  }

  lemma {:induction false} LengthMonotone(a: nat, b: nat)
    requires a <= b
    ensures |Digits(256, a)| <= |Digits(256, b)|
    decreases b
  {
    if a > 0 {
      QuotMonotone(a, b, 256);
      LengthMonotone(Quot(a, 256), Quot(b, 256));
    }
  }

  predicate Exceeds(v: nat, zeros: nat, max: int) {
    max > 0 && v > 0 && |Digits(256, v)| + zeros > max
  }

  /** Over the alphabet, the early exit fires exactly when the finished value would be too long. */
  lemma {:induction false} ScanValid(s: string, zeros: nat, max: int)
    requires Valid(s)
    ensures var v := Value(58, Indices(s)); Scan(s, zeros, max) == if Exceeds(v, zeros, max) then Err(TooLong) else Ok(v)
  {
    if s != "" {
      var init := s[..|s| - 1];
      ScanValid(init, zeros, max);
      assert Indices(s)[..|s| - 1] == Indices(init);
      ScanStep(Value(58, Indices(init)), Value(58, Indices(s)), zeros, max);
    }
  }

  lemma ScanStep(v: nat, v': nat, zeros: nat, max: int)
    requires v <= v'
    ensures Exceeds(v, zeros, max) ==> Exceeds(v', zeros, max)
    ensures !Exceeds(v, zeros, max) ==> (Exceeds(v', zeros, max) <==> Outgrows(v, v', zeros, max))
  {
    LengthMonotone(v, v');
  }

  lemma ValidIsTrimmed(s: string)
    requires Valid(s)
    ensures Trimmed(s)
  {}

  /** Over the alphabet: the bytes, or too long exactly when they exceed the limit. Re-encoding gives
      the string back. */
  lemma DecodeValid(s: string, max: int)
    requires Valid(s) && s != ""
    ensures Encode(Bytes(s)) == s
    ensures Decode(s, max) == if max > 0 && |Bytes(s)| > max then Err(TooLong) else Ok(Bytes(s))
  {
    ValidIsTrimmed(s);
    ScanValid(s, LeadingOnes(s), max);
    OnesAreZeros(s);
    RoundTrip(58, 256, Indices(s));
    IndicesText(s);
  }

  /** What a scan of anything else may report. */
  predicate ScanFault(s: string, e: DecodeError) {
    e == TooLong || (e.BadCharacter? && e.c in s && DigitOf(e.c).None?)
  }

  lemma {:induction false} ScanInvalid(s: string, zeros: nat, max: int)
    requires !Valid(s)
    ensures Scan(s, zeros, max).Err? && ScanFault(s, Scan(s, zeros, max).error)
  {
    var init := s[..|s| - 1];
    assert s == init + [s[|s| - 1]];
    if Valid(init) {
      ScanValid(init, zeros, max);
      assert DigitOf(s[|s| - 1]).None?;
    } else {
      ScanInvalid(init, zeros, max);
    }
  }

  /** The first character outside the alphabet is reported, unless what stands before it already exceeds
      the limit. */
  lemma {:induction false} FirstFault(s: string, n: nat, zeros: nat, max: int)
    requires n < |s| && Valid(s[..n]) && DigitOf(s[n]).None?
    ensures Scan(s, zeros, max) == Err(if Exceeds(Value(58, Indices(s[..n])), zeros, max) then TooLong else BadCharacter(s[n]))
    decreases |s|
  {
    var init := s[..|s| - 1];
    if n == |s| - 1 {
      ScanValid(init, zeros, max);
    } else {
      assert init[..n] == s[..n];
      FirstFault(init, n, zeros, max);
    }
  }

  /** What decoding reports: an empty string, white space at an end, or the first fault. */
  lemma DecodeFaults(s: string, n: nat, max: int)
    requires n < |s| && Valid(s[..n]) && s[n] !in ALPHABET
    ensures Decode(s, max)
         == Err(if !Trimmed(s) then Whitespace
                else if Exceeds(Value(58, Indices(s[..n])), LeadingOnes(s), max) then TooLong
                else BadCharacter(s[n]))
  {
    assert DigitOf(s[n]).None?;
    FirstFault(s, n, LeadingOnes(s), max);
  }

  /** Decoding succeeds exactly on the non-empty strings over the alphabet whose bytes fit. */
  lemma DecodeSucceedsIff(s: string, max: int)
    ensures Decode(s, max).Ok? <==> s != "" && Valid(s) && (max <= 0 || |Bytes(s)| <= max)
    ensures Decode(s, max) != Err(NonCanonical)
  {
    if s != "" {
      if Valid(s) { DecodeValid(s, max); } else { ScanInvalid(s, LeadingOnes(s), max); }
    }
  }

  /** Every byte string that fits decodes back from its encoding; only the empty one does not, because
      its encoding is the empty string. */
  lemma DecodeEncode(b: seq<nat>, max: int)
    requires InBase(256, b)
    ensures Decode(Encode(b), max) == if b == [] then Err(Empty) else if max > 0 && |b| > max then Err(TooLong) else Ok(b)
  {
    TextIndices(Convert(256, 58, b));
    RoundTrip(256, 58, b);
    if b == [] {
      assert Convert(256, 58, b) == [];
    } else {
      NotEmpty(b);
      DecodeValid(Encode(b), max);
    }
  }

  lemma NotEmpty(b: seq<nat>)
    requires InBase(256, b) && b != []
    ensures Convert(256, 58, b) != []
  {
    RoundTrip(256, 58, b);
    assert Convert(58, 256, []) == [];
  }

  // ---------- the loops ----------

  lemma DivIsQuot(v: nat, b: nat)
    requires b >= 2
    ensures v / b == Quot(v, b) && v % b == Rem(v, b)
  {
    QuotRem(v, b);
    SameDivision(v, b, Quot(v, b), Rem(v, b), v / b, v % b);
  }

  lemma SameDivision(v: int, b: int, q: int, r: int, q': int, r': int)
    requires v == b * q + r && v == b * q' + r' && 0 <= r < b && 0 <= r' < b
    ensures q == q' && r == r'
  {
    Distribute(b, q, -q');
    Small(b, q - q');
  }

  lemma Small(b: int, k: int)
    requires -b < b * k < b
    ensures k == 0
  {}

  method DivMod(t: nat, base: nat) returns (q: nat, r: nat)
    requires base >= 2
    ensures q == Quot(t, base) && r == Rem(t, base)
  {
    DivIsQuot(t, base);
    q, r := t / base, t % base;
  }

  /** carry += a[j] * m; a[j] = carry % base; carry /= base. */
  method CarryDigit(a: array<nat>, j: nat, base: nat, m: nat, carry: nat, ghost rest: seq<nat>, ghost target: seq<nat>) returns (next: nat)
    requires base >= 2 && j < a.Length && a[..j] + MulAdd(base, [a[j]] + rest, m, carry) == target
    modifies a
    ensures a[..j + 1] + MulAdd(base, rest, m, next) == target
    ensures forall i :: j < i < a.Length ==> a[i] == old(a[i])
  {
    ghost var head, digits := a[..j], [a[j]] + rest;
    assert digits[1..] == rest;
    var digit;
    next, digit := DivMod(carry + a[j] * m, base);
    a[j] := digit;
    assert a[..j + 1] == head + [digit];
    assert head + ([digit] + MulAdd(base, rest, m, next)) == head + [digit] + MulAdd(base, rest, m, next);
  }

  /** for j: one digit after the other. */
  method CarryThrough(a: array<nat>, n: nat, base: nat, m: nat, carry0: nat) returns (carry: nat)
    requires base >= 2 && n <= a.Length
    modifies a
    ensures a[..n] + Digits(base, carry) == MulAdd(base, old(a[..n]), m, carry0)
  {
    carry := carry0;
    ghost var was := a[..n];
    ghost var target := MulAdd(base, was, m, carry0);
    for j := 0 to n
      invariant a[..j] + MulAdd(base, was[j..], m, carry) == target
      invariant forall i :: j <= i < n ==> a[i] == was[i]
    {
      assert was[j..] == [a[j]] + was[j + 1..];
      carry := CarryDigit(a, j, base, m, carry, was[j + 1..], target);
    }
  }

  /** Append carry % base; carry /= base. */
  method AppendDigit(a: array<nat>, n: nat, base: nat, carry: nat, ghost target: seq<nat>) returns (n': nat, rest: nat)
    requires base >= 2 && carry > 0 && n <= a.Length && |target| <= a.Length && a[..n] + Digits(base, carry) == target
    modifies a
    ensures n' == n + 1 <= |target| && rest == Quot(carry, base) && a[..n'] + Digits(base, rest) == target
  {
    assert |target| == n + |Digits(base, carry)|;
    ghost var head := a[..n];
    var digit;
    rest, digit := DivMod(carry, base);
    a[n] := digit;
    n' := n + 1;
    assert a[..n'] == head + [digit];
  }

  /** for carry > 0: append the next digit. */
  method AppendCarry(a: array<nat>, n: nat, base: nat, carry0: nat) returns (n': nat)
    requires base >= 2 && n + |Digits(base, carry0)| <= a.Length
    modifies a
    ensures n' == n + |Digits(base, carry0)| && a[..n'] == old(a[..n]) + Digits(base, carry0)
  {
    n' := n;
    var carry: nat := carry0;
    ghost var target := a[..n] + Digits(base, carry0);
    while carry > 0
      invariant n <= n' <= a.Length && a[..n'] + Digits(base, carry) == target
      decreases carry
    {
      n', carry := AppendDigit(a, n', base, carry, target);
    }
    assert a[..n'] + [] == a[..n'];
  }

  /** One byte: multiply, add, append. */
  method TakeByte(digits: array<nat>, n: nat, b: nat, ghost v: nat, ghost v': nat) returns (n': nat)
    requires n <= digits.Length && digits[..n] == Digits(58, v) && v' == 256 * v + b && |Digits(58, v')| <= digits.Length
    modifies digits
    ensures n' <= digits.Length && digits[..n'] == Digits(58, v')
  {
    MulAddDigits(58, v, 256, b, v');
    var carry := CarryThrough(digits, n, 58, 256, b);
    assert |digits[..n] + Digits(58, carry)| == |Digits(58, v')|;
    n' := AppendCarry(digits, n, 58, carry);
  }

  lemma NextValue(b: seq<nat>, i: nat)
    requires i < |b|
    ensures Value(256, b[..i + 1]) == 256 * Value(256, b[..i]) + b[i]
  {
    assert b[..i + 1][..i] == b[..i];
  }

  /** The digits so far are those of the first i bytes. */
  ghost predicate Taken(b: seq<nat>, i: int, digits: seq<nat>) {
    0 <= i <= |b| && digits == Digits(58, Value(256, b[..i]))
  }

  /** One byte of the input more. */
  method TakeNext(digits: array<nat>, n: nat, b: seq<nat>, i: nat) returns (n': nat)
    requires InBase(256, b) && i < |b| && n <= digits.Length == Capacity(|b|) && Taken(b, i, digits[..n])
    modifies digits
    ensures n' <= digits.Length && Taken(b, i + 1, digits[..n'])
  {
    NextValue(b, i);
    PrefixFits(b, i + 1);
    n' := TakeByte(digits, n, b[i], Value(256, b[..i]), Value(256, b[..i + 1]));
  }

  lemma NoneTaken(b: seq<nat>, zeros: nat)
    requires InBase(256, b) && zeros <= |b| && forall i :: 0 <= i < zeros ==> b[i] == 0
    ensures Taken(b, zeros, [])
  {
    ValueSkipsZeros(256, b[..zeros], zeros);
  }

  /** The digit loop of the encoder, in the capacity it reserves. */
  method EncodeNumber(b: seq<nat>, zeros: nat) returns (digits: array<nat>, n: nat)
    requires InBase(256, b) && zeros <= |b| && forall i :: 0 <= i < zeros ==> b[i] == 0
    ensures fresh(digits) && n <= digits.Length == Capacity(|b|) && Taken(b, |b|, digits[..n])
  {
    digits := new nat[Capacity(|b|)];
    n := 0;
    NoneTaken(b, zeros);
    assert digits[..0] == [];
    for i := zeros to |b|
      invariant n <= digits.Length && Taken(b, i, digits[..n])
    {
      n := TakeNext(digits, n, b, i);
    }
  }

  method EncodeBase58(b: seq<nat>) returns (s: string)
    requires InBase(256, b)
    ensures s == Encode(b)
  {
    if b == [] { return ""; }
    var zeros := 0;
    while zeros < |b| && b[zeros] == 0
      invariant zeros <= |b| && forall i :: 0 <= i < zeros ==> b[i] == 0
    {
      zeros := zeros + 1;
    }
    LeadingZerosIs(b, zeros);
    var digits, n := EncodeNumber(b, zeros);
    assert b[..|b|] == b;
    s := WriteText(zeros, digits, n);
  }

  /** '1' for every zero byte, then the digits from the most significant down. */
  method WriteText(zeros: nat, digits: array<nat>, n: nat) returns (s: string)
    requires n <= digits.Length && InBase(58, digits[..n])
    ensures s == Text(Zeros(zeros) + Rev(digits[..n]))
  {
    s := "";
    for i := 0 to zeros
      invariant s == Text(Zeros(i))
    {
      assert Zeros(i + 1) == Zeros(i) + [0];
      s := s + [ALPHABET[0]];
    }
    ghost var rev := Rev(digits[..n]);
    var i := n;
    while i > 0
      invariant 0 <= i <= n && s == Text(Zeros(zeros) + rev[..n - i])
    {
      i := i - 1;
      assert rev[..n - i] == rev[..n - i - 1] + [digits[..n][i]];
      s := s + [Letter(digits[i])];
    }
    assert rev[..n] == rev;
  }

  lemma PrefixFits(b: seq<nat>, i: nat)
    requires InBase(256, b) && i <= |b|
    ensures |Digits(58, Value(256, b[..i]))| <= Capacity(|b|)
  {
    EncodedFits(b[..i]);
  }

  lemma {:induction false} ScanStops(s: string, i: nat, zeros: nat, max: int)
    requires i <= |s| && Scan(s[..i], zeros, max).Err?
    ensures Scan(s, zeros, max) == Scan(s[..i], zeros, max)
  {
    if i == |s| {
      assert s[..i] == s;
    } else {
      assert s[..|s| - 1][..i] == s[..i];
      ScanStops(s[..|s| - 1], i, zeros, max);
    }
  }

  /** A scan that has not failed has only seen letters, and its value fits one byte per letter. */
  lemma {:induction false} ScanFits(s: string, zeros: nat, max: int)
    requires Scan(s, zeros, max).Ok?
    ensures Valid(s) && Scan(s, zeros, max).value == Value(58, Indices(s)) && |Digits(256, Scan(s, zeros, max).value)| <= |s|
  {
    if !Valid(s) { ScanInvalid(s, zeros, max); }
    ScanValid(s, zeros, max);
    DecodedFits(Indices(s));
  }

  /** The decoder's append loop gives up as soon as the bytes would exceed the limit. */
  method AppendLimited(a: array<nat>, n: nat, carry0: nat, zeros: nat, max: int) returns (n': nat, tooLong: bool)
    requires n + |Digits(256, carry0)| <= a.Length
    modifies a
    ensures tooLong <==> max > 0 && carry0 > 0 && n + |Digits(256, carry0)| + zeros > max
    ensures !tooLong ==> n' == n + |Digits(256, carry0)| && a[..n'] == old(a[..n]) + Digits(256, carry0)
  {
    n', tooLong := n, false;
    var carry: nat := carry0;
    ghost var target := a[..n] + Digits(256, carry0);
    while carry > 0
      invariant n <= n' <= a.Length && a[..n'] + Digits(256, carry) == target
      invariant n < n' && max > 0 ==> n' + zeros <= max
      decreases carry
    {
      n', carry := AppendDigit(a, n', 256, carry, target);
      if max > 0 && n' + zeros > max { return n', true; }
    }
    assert a[..n'] + [] == a[..n'];
  }

  lemma IndicesSnoc(s: string, c: char, d: nat)
    requires Valid(s) && DigitOf(c) == Some(d)
    ensures Valid(s + [c]) && Indices(s + [c]) == Indices(s) + [d] && Value(58, Indices(s + [c])) == 58 * Value(58, Indices(s)) + d
  {
    assert Indices(s + [c]) == Indices(s) + [d];
    ValueSnoc(58, Indices(s), d);
  }

  lemma LetterFits(s: string, c: char, d: nat, v': nat)
    requires Valid(s) && DigitOf(c) == Some(d) && v' == 58 * Value(58, Indices(s)) + d
    ensures |Digits(256, v')| <= |s| + 1
  {
    IndicesSnoc(s, c, d);
    DecodedFits(Indices(s + [c]));
  }

  /** One character more, when the text so far was read. */
  lemma ScanSnoc(t: string, init: string, c: char, zeros: nat, max: int, v: nat, d: nat)
    requires t == init + [c] && Scan(init, zeros, max) == Ok(v) && DigitOf(c) == Some(d)
    ensures Scan(t, zeros, max) == if Outgrows(v, 58 * v + d, zeros, max) then Err(TooLong) else Ok(58 * v + d)
  {
    assert t[..|t| - 1] == init && t[|t| - 1] == c;
  }

  lemma ReadFits(s: string, i: nat, zeros: nat, max: int, v: nat, d: nat, v': nat)
    requires i < |s| && Scan(s[..i], zeros, max) == Ok(v) && DigitOf(s[i]) == Some(d) && v' == 58 * v + d
    ensures |Digits(256, v')| <= |s|
  {
    ScanFits(s[..i], zeros, max);
    LetterFits(s[..i], s[i], d, v');
  }

  /** The next character is a letter: what it does to the value. */
  lemma ReadsOne(s: string, i: nat, zeros: nat, max: int, v: nat, d: nat, v': nat)
    requires i < |s| && Scan(s[..i], zeros, max) == Ok(v) && DigitOf(s[i]) == Some(d) && v' == 58 * v + d
    ensures |Digits(256, v')| <= |s|
    ensures Scan(s[..i + 1], zeros, max) == if Outgrows(v, v', zeros, max) then Err(TooLong) else Ok(v')
  {
    ReadFits(s, i, zeros, max, v, d, v');
    ScanSnoc(s[..i + 1], s[..i], s[i], zeros, max, v, d);
  }

  /** The next character is none. */
  lemma ReadsBad(s: string, i: nat, zeros: nat, max: int, v: nat)
    requires i < |s| && Scan(s[..i], zeros, max) == Ok(v) && DigitOf(s[i]) == None
    ensures Scan(s, zeros, max) == Err(BadCharacter(s[i]))
  {
    assert s[..i + 1][..i] == s[..i];
    ScanStops(s, i + 1, zeros, max);
  }

  /** One letter: multiply, add, append. */
  method TakeLetter(out: array<nat>, n: nat, d: nat, zeros: nat, max: int, ghost v: nat, ghost v': nat) returns (n': nat, tooLong: bool)
    requires n <= out.Length && out[..n] == Digits(256, v) && v' == 58 * v + d && |Digits(256, v')| <= out.Length
    modifies out
    ensures tooLong <==> Outgrows(v, v', zeros, max)
    ensures !tooLong ==> n' <= out.Length && out[..n'] == Digits(256, v')
  {
    MulAddDigits(256, v, 58, d, v');
    var carry := CarryThrough(out, n, 256, 58, d);
    assert |out[..n] + Digits(256, carry)| == |Digits(256, v')|;
    n', tooLong := AppendLimited(out, n, carry, zeros, max);
  }

  /** The decoder's digit loop. */
  method DecodeNumber(s: string, zeros: nat, max: int) returns (err: Option<DecodeError>, out: array<nat>, n: nat)
    ensures fresh(out) && n <= out.Length
    ensures match Scan(s, zeros, max) case Err(e) => err == Some(e) case Ok(v) => err == None && out[..n] == Digits(256, v)
  {
    out := new nat[|s|];
    n := 0;
    ghost var v: nat := 0;
    for i := 0 to |s|
      invariant n <= out.Length && Scan(s[..i], zeros, max) == Ok(v) && out[..n] == Digits(256, v)
    {
      var d := DigitOf(s[i]);
      if d.None? {
        ReadsBad(s, i, zeros, max, v);
        return Some(BadCharacter(s[i])), out, n;
      }
      ghost var v': nat := 58 * v + d.value;
      ReadsOne(s, i, zeros, max, v, d.value, v');
      var n', tooLong := TakeLetter(out, n, d.value, zeros, max, v, v');
      if tooLong {
        ScanStops(s, i + 1, zeros, max);
        return Some(TooLong), out, n;
      }
      n, v := n', v';
    }
    assert s[..|s|] == s;
    err := None;
  }

  method DecodeBase58(s: string, max: int) returns (res: Result<seq<nat>, DecodeError>)
    ensures res == Decode(s, max)
  {
    if s == "" { return Err(Empty); }
    if !Trimmed(s) { return Err(Whitespace); }
    var zeros := 0;
    while zeros < |s| && s[zeros] == '1'
      invariant zeros <= |s| && forall i :: 0 <= i < zeros ==> s[i] == '1'
    {
      zeros := zeros + 1;
    }
    OnesAre(s, zeros);
    var err, out, n := DecodeNumber(s, zeros, max);
    if err.Some? { return Err(err.value); }
    var decoded := WriteBytes(zeros, out, n);
    if max > 0 && |decoded| > max { return Err(TooLong); }
    var again := EncodeBase58(decoded);
    if again != s { return Err(NonCanonical); }
    res := Ok(decoded);
  }

  lemma {:induction false} OnesAre(s: string, z: nat)
    requires z <= |s| && (forall i :: 0 <= i < z ==> s[i] == '1') && (z < |s| ==> s[z] != '1')
    ensures LeadingOnes(s) == z
  {
    if z > 0 { OnesAre(s[1..], z - 1); }
  }

  /** Zeros first, then the digits reversed, written into a fresh array. */
  method WriteBytes(zeros: nat, out: array<nat>, n: nat) returns (decoded: seq<nat>)
    requires n <= out.Length
    ensures decoded == Zeros(zeros) + Rev(out[..n])
  {
    var bytes := new nat[zeros + n];
    for i := 0 to zeros
      invariant forall j :: 0 <= j < i ==> bytes[j] == 0
    {
      bytes[i] := 0;
    }
    for i := 0 to n
      invariant forall j :: 0 <= j < zeros ==> bytes[j] == 0
      invariant forall j :: 0 <= j < i ==> bytes[zeros + n - 1 - j] == out[j]
    {
      bytes[zeros + n - 1 - i] := out[i];
    }
    decoded := bytes[..];
    forall j | 0 <= j < n ensures decoded[zeros + j] == Rev(out[..n])[j] {
      assert bytes[zeros + n - 1 - (n - 1 - j)] == out[n - 1 - j];
    }
  }
}
