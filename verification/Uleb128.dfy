/** The variable-length encoding of unsigned 64-bit integers: seven bits a byte, least significant first. */
module Uleb128 {
  import opened Slices
  import opened Wrappers

  type Byte = b: int | 0 <= b < 0x100

  const U64_LIMIT := 0x1_0000_0000_0000_0000

  type U64 = x: int | 0 <= x < U64_LIMIT

  datatype Error = Malformed

  // ---------------------------------------------------------------------------------------------
  // The encoding
  // ---------------------------------------------------------------------------------------------

  /** The encoding of a value, digit by digit. */
  function Encode(x: nat): (bytes: seq<Byte>)
    ensures |bytes| > 0
  {
    if x < 0x80 then [x] else [x % 0x80 + 0x80] + Encode(x / 0x80)
  }

  /** The number that a string of bytes spells, whether or not it is an encoding. */
  function Value(bytes: seq<Byte>): nat {
    if bytes == [] then 0 else bytes[0] % 0x80 + 0x80 * Value(bytes[1..])
  }

  /** Exactly the last byte ends the number, and it is not a superfluous zero. */
  predicate Canonical(bytes: seq<Byte>) {
    && |bytes| > 0
    && (forall i | 0 <= i < |bytes| - 1 :: bytes[i] >= 0x80)
    && bytes[|bytes| - 1] < 0x80
    && (|bytes| > 1 ==> bytes[|bytes| - 1] != 0)
  }

  lemma {:induction false} EncodeCanonical(x: nat)
    ensures Canonical(Encode(x)) && Value(Encode(x)) == x
    ensures x > 0 ==> Encode(x)[|Encode(x)| - 1] != 0
    decreases x
  {
    var bytes := Encode(x);
    if x < 0x80 {
      assert bytes[1..] == [];
    } else {
      EncodeCanonical(x / 0x80);
      assert bytes[1..] == Encode(x / 0x80);
      assert forall i | 1 <= i < |bytes| :: bytes[i] == bytes[1..][i - 1];
    }
  }

  lemma {:induction false} CanonicalEncodes(bytes: seq<Byte>)
    requires Canonical(bytes)
    ensures Encode(Value(bytes)) == bytes
    ensures |bytes| > 1 ==> Value(bytes) >= 0x80
    decreases |bytes|
  {
    var rest := bytes[1..];
    if |bytes| == 1 {
      assert rest == [];
    } else {
      CanonicalEncodes(rest);
      if |rest| == 1 {
        ValueOne(rest[0]);
        assert rest == [rest[0]];
      }
      ValueCons(bytes);
      DigitFirst(bytes[0] - 0x80, Value(rest));
      assert bytes == [bytes[0]] + rest;
    }
  }

  lemma ValueCons(bytes: seq<Byte>)
    requires bytes != [] && bytes[0] >= 0x80
    ensures Value(bytes) == bytes[0] - 0x80 + 0x80 * Value(bytes[1..])
  {
  }

  lemma DigitFirst(digit: nat, rest: nat)
    requires digit < 0x80 && rest > 0
    ensures Encode(digit + 0x80 * rest) == [digit + 0x80] + Encode(rest)
  {
    assert (digit + 0x80 * rest) % 0x80 == digit && (digit + 0x80 * rest) / 0x80 == rest;
  }

  /** Encodings and canonical byte strings correspond one to one. */
  lemma Bijection(x: nat, bytes: seq<Byte>)
    ensures bytes == Encode(x) <==> Canonical(bytes) && Value(bytes) == x
  {
    EncodeCanonical(x);
    if Canonical(bytes) {
      CanonicalEncodes(bytes);
    }
  }

  // ---------------------------------------------------------------------------------------------
  // Arithmetic of machine words
  // ---------------------------------------------------------------------------------------------

  function Pow2(n: nat): nat {
    if n == 0 then 1 else 2 * Pow2(n - 1)
  }

  /** Shifts of 64-bit words; only shifts of less than the width are defined. */
  function ShiftLeft(x: U64, n: nat): U64
    requires n < 64
  {
    Pow2(n) * x % U64_LIMIT
  }

  function ShiftRight(x: U64, n: nat): (r: int)
    requires n < 64
  {
    Pow2Positive(n);
    x / Pow2(n)
  }

  /** The bitwise or of words that share no bits. */
  function OrAbove(low: nat, high: nat, n: nat): nat
    requires low < Pow2(n) && Multiple(high, Pow2(n))
  {
    low + high
  }

  ghost predicate Multiple(x: nat, p: nat) {
    exists k :: x == p * k
  }

  lemma {:induction false} Pow2Positive(n: nat)
    ensures Pow2(n) > 0
    decreases n
  {
    if n > 0 {
      Pow2Positive(n - 1);
    }
  }

  lemma Pow2Seven(n: nat)
    ensures Pow2(n + 7) == 0x80 * Pow2(n)
  {
    assert Pow2(n + 7) == 2 * Pow2(n + 6) == 4 * Pow2(n + 5) == 8 * Pow2(n + 4);
    assert Pow2(n + 4) == 2 * Pow2(n + 3) == 4 * Pow2(n + 2) == 8 * Pow2(n + 1);
  }

  lemma {:induction false} Pow2Sum(m: nat, n: nat)
    ensures Pow2(m + n) == Pow2(m) * Pow2(n)
    decreases m
  {
    if m > 0 {
      Pow2Sum(m - 1, n);
      assert Pow2(m + n) == 2 * Pow2(m - 1 + n);
      assert 2 * (Pow2(m - 1) * Pow2(n)) == (2 * Pow2(m - 1)) * Pow2(n);
    }
  }

  lemma Pow2Limit(n: nat)
    requires n <= 64
    ensures Pow2(n) * Pow2(64 - n) == U64_LIMIT
  {
    Pow2Sum(n, 64 - n);
    Pow2Word();
  }

  lemma Pow2Word()
    ensures Pow2(64) == U64_LIMIT
  {
    assert Pow2(8) == 0x100;
    Pow2Sum(8, 8);
    Pow2Sum(16, 16);
    Pow2Sum(32, 32);
  }

  lemma MulMonotone(a: nat, b: nat, p: nat)
    requires a <= b
    ensures p * a <= p * b
  {
    assert p * b == p * a + p * (b - a);
  }

  lemma DivBelow(y: nat, p: nat, k: nat)
    requires y < p * k
    ensures y / p < k
  {
    if y / p >= k {
      MulMonotone(k, y / p, p);
    }
  }

  lemma DivExact(p: nat, k: nat)
    requires p > 0
    ensures p * k / p == k
  {
    DivBelow(p * k, p, k + 1);
    if p * k / p < k {
      MulMonotone(p * k / p + 1, k, p);
    }
  }

  /** Shifting there and back shows whether bits were lost. */
  lemma ShiftedBack(cur: nat, n: nat)
    requires n < 64 && cur < 0x80
    ensures ShiftRight(ShiftLeft(cur, n), n) == cur <==> Pow2(n) * cur < U64_LIMIT
    ensures Pow2(n) * cur < U64_LIMIT ==> ShiftLeft(cur, n) == Pow2(n) * cur
  {
    var p, y := Pow2(n), ShiftLeft(cur, n);
    Pow2Positive(n);
    if p * cur < U64_LIMIT {
      assert y == p * cur;
      DivExact(p, cur);
    } else {
      assert y < p * cur;
      DivBelow(y, p, cur);
    }
  }

  /** The sum of a low part and a shifted digit stays a word. */
  lemma WordSum(low: nat, cur: nat, n: nat)
    requires n <= 64 && low < Pow2(n) && Pow2(n) * cur < U64_LIMIT
    ensures low + Pow2(n) * cur < U64_LIMIT
  {
    Pow2Limit(n);
    var p, q := Pow2(n), Pow2(64 - n);
    if cur >= q {
      MulMonotone(q, cur, p);
    } else {
      MulMonotone(cur + 1, q, p);
      assert p * (cur + 1) == p * cur + p;
    }
  }

  // ---------------------------------------------------------------------------------------------
  // Writing
  // ---------------------------------------------------------------------------------------------

  /** Appends the encoding of a value. */
  method WriteU64(binary: seq<Byte>, x: U64) returns (r: seq<Byte>)
    ensures r == binary + Encode(x)
  {
    var val := x;
    r := binary;
    while true
      invariant val >= 0 && r + Encode(val) == binary + Encode(x)
      decreases val
    {
      var cur := val % 0x80;
      if cur != val {
        assert r + Encode(val) == r + [cur + 0x80] + Encode(val / 0x80);
        r := r + [cur + 0x80];
        val := val / 0x80;
      } else {
        r := r + [cur];
        break;
      }
    }
  }

  // ---------------------------------------------------------------------------------------------
  // Reading
  // ---------------------------------------------------------------------------------------------

  lemma {:induction false} ValueAppend(a: seq<Byte>, b: seq<Byte>)
    ensures Value(a + b) == Value(a) + Pow2(7 * |a|) * Value(b)
    decreases |a|
  {
    if a == [] {
      assert a + b == b;
    } else {
      assert (a + b)[1..] == a[1..] + b;
      ValueAppend(a[1..], b);
      Pow2Seven(7 * |a| - 7);
      Distribute(Value(a[1..]), Pow2(7 * |a| - 7), Value(b));
    }
  }

  lemma Distribute(x: nat, p: nat, y: nat)
    ensures 0x80 * (x + p * y) == 0x80 * x + (0x80 * p) * y
  {
  }

  /** One digit more. */
  lemma ValueSnoc(a: seq<Byte>, b: Byte)
    ensures Value(a + [b]) == Value(a) + Pow2(7 * |a|) * (b % 0x80)
  {
    ValueAppend(a, [b]);
    ValueOne(b);
  }

  lemma ValueOne(b: Byte)
    ensures Value([b]) == b % 0x80
  {
    assert [b][1..] == [];
  }

  lemma {:induction false} ValueBelow(a: seq<Byte>)
    ensures Value(a) < Pow2(7 * |a|)
    decreases |a|
  {
    if a != [] {
      ValueBelow(a[1..]);
      Pow2Seven(7 * |a| - 7);
    }
  }

  lemma ValueGrows(a: seq<Byte>, b: seq<Byte>)
    requires a <= b
    ensures Value(a) <= Value(b)
  {
    assert b == a + b[|a|..];
    ValueAppend(a, b[|a|..]);
    assert Pow2(7 * |a|) * Value(b[|a|..]) >= 0;
  }

  /** Beyond ten bytes no encoding is that of a word. */
  lemma TooLong(bytes: seq<Byte>)
    requires Canonical(bytes) && |bytes| > 10
    ensures Value(bytes) >= U64_LIMIT
  {
    var n := |bytes| - 1;
    assert bytes == bytes[..n] + [bytes[n]];
    ValueSnoc(bytes[..n], bytes[n]);
    Pow2Sum(64, 7 * n - 64);
    Pow2Word();
    Pow2Positive(7 * n - 64);
    MulMonotone(1, Pow2(7 * n - 64), Pow2(64));
    MulMonotone(1, bytes[n], Pow2(7 * n));
  }

  /** The encoding of a word is next at the given position. */
  ghost predicate EncodedAt(binary: seq<Byte>, position: nat, x: nat) {
    x < U64_LIMIT && At(binary, position, Encode(x))
  }

  /** The next `n` bytes all announce another one. */
  ghost predicate Continued(binary: seq<Byte>, position: nat, n: nat) {
    position + n <= |binary| && forall i | position <= i < position + n :: binary[i] >= 0x80
  }

  lemma EncodedBytes(binary: seq<Byte>, position: nat, x: nat)
    requires EncodedAt(binary, position, x)
    ensures forall i | position <= i < position + |Encode(x)| :: binary[i] == Encode(x)[i - position]
  {
    forall i | position <= i < position + |Encode(x)| ensures binary[i] == Encode(x)[i - position] {
      assert binary[position + (i - position)] == Encode(x)[i - position];
    }
  }

  /** An encoding is longer than any run of continued bytes. */
  lemma EncodedBeyond(binary: seq<Byte>, position: nat, n: nat, x: nat)
    requires EncodedAt(binary, position, x) && Continued(binary, position, n)
    ensures |Encode(x)| > n
  {
    EncodeCanonical(x);
    EncodedBytes(binary, position, x);
  }

  /** No encoding of a word is next. */
  ghost predicate NoneAt(binary: seq<Byte>, position: nat) {
    forall x :: !EncodedAt(binary, position, x)
  }

  /** A digit that does not fit makes the number too large. */
  lemma Overflows(binary: seq<Byte>, position: nat, n: nat)
    requires Continued(binary, position, n) && position + n < |binary|
    requires Pow2(7 * n) * (binary[position + n] % 0x80) >= U64_LIMIT
    ensures NoneAt(binary, position)
  {
    forall x | EncodedAt(binary, position, x) ensures false {
      EncodedBeyond(binary, position, n, x);
      EncodeCanonical(x);
      EncodedBytes(binary, position, x);
      var bytes := Encode(x);
      ValueSnoc(bytes[..n], bytes[n]);
      ValueGrows(bytes[..n] + [bytes[n]], bytes);
    }
  }

  /** A last digit that is a superfluous zero ends no encoding. */
  lemma ZeroEnd(binary: seq<Byte>, position: nat, n: nat)
    requires 0 < n && Continued(binary, position, n) && position + n < |binary| && binary[position + n] == 0
    ensures NoneAt(binary, position)
  {
    forall x | EncodedAt(binary, position, x) ensures false {
      EncodedBeyond(binary, position, n, x);
      EncodeCanonical(x);
      EncodedBytes(binary, position, x);
    }
  }

  lemma NoneThatLong(binary: seq<Byte>, position: nat, n: nat)
    requires n >= 10 && Continued(binary, position, n)
    ensures NoneAt(binary, position)
  {
    forall x | EncodedAt(binary, position, x) ensures false {
      EncodedBeyond(binary, position, n, x);
      EncodeCanonical(x);
      TooLong(Encode(x));
    }
  }

  lemma NoneEnds(binary: seq<Byte>, position: nat, n: nat)
    requires Continued(binary, position, n) && position + n == |binary|
    ensures NoneAt(binary, position)
  {
    forall x | EncodedAt(binary, position, x) ensures false {
      EncodedBeyond(binary, position, n, x);
    }
  }

  /** The digits of the first `n` bytes make up `value`. */
  ghost predicate Digits(binary: seq<Byte>, position: nat, n: nat, value: nat) {
    position + n <= |binary| && value == Value(binary[position..position + n]) < Pow2(7 * n)
  }

  /** A digit that is lost when it is shifted into place makes the number too large. */
  lemma LostDigit(binary: seq<Byte>, position: nat, n: nat)
    requires Continued(binary, position, n) && position + n < |binary| && 7 * n < 64
    requires var cur := binary[position + n] % 0x80; ShiftRight(ShiftLeft(cur, 7 * n), 7 * n) != cur
    ensures NoneAt(binary, position)
  {
    ShiftedBack(binary[position + n] % 0x80, 7 * n);
    Overflows(binary, position, n);
  }

  /** A digit that is not lost extends the number. */
  lemma NextDigit(binary: seq<Byte>, position: nat, n: nat, value: nat)
    requires Digits(binary, position, n, value) && position + n < |binary| && 7 * n < 64
    requires var cur := binary[position + n] % 0x80; ShiftRight(ShiftLeft(cur, 7 * n), 7 * n) == cur
    ensures var high := ShiftLeft(binary[position + n] % 0x80, 7 * n);
            && Multiple(high, Pow2(7 * n)) && value < Pow2(7 * n) && value + high < U64_LIMIT
            && Digits(binary, position, n + 1, value + high)
  {
    var byte := binary[position + n];
    ShiftedBack(byte % 0x80, 7 * n);
    WordSum(value, byte % 0x80, 7 * n);
    var before, bytes := binary[position..position + n], binary[position..position + n + 1];
    assert bytes == before + [byte];
    ValueSnoc(before, byte);
    ValueBelow(bytes);
  }

  /** The last digit completes an encoding, unless it is a superfluous zero. */
  lemma LastDigit(binary: seq<Byte>, position: nat, n: nat, value: nat)
    requires Continued(binary, position, n) && position + n < |binary| && binary[position + n] < 0x80
    requires Digits(binary, position, n + 1, value) && value < U64_LIMIT
    requires n == 0 || binary[position + n] != 0
    ensures EncodedAt(binary, position, value) && |Encode(value)| == n + 1
  {
    var bytes := binary[position..position + n + 1];
    assert forall i | 0 <= i < n :: bytes[i] == binary[position + i];
    CanonicalEncodes(bytes);
  }

  /**
   Reads a word and moves on behind it. This succeeds exactly if an encoding of a word comes next, however the bytes
   go on behind it, and no shift reaches the width of a word.
   */
  method ReadU64(binary: seq<Byte>, position: nat) returns (r: Result<U64, Error>, next: nat)
    requires position <= |binary|
    ensures position <= next <= |binary|
    ensures r.Ok? ==> EncodedAt(binary, position, r.value) && next == position + |Encode(r.value)|
    ensures r.Err? ==> NoneAt(binary, position)
  {
    var value: nat, shift := 0, 0;
    ghost var n := 0;
    next := position;
    while next < |binary|
      invariant next == position + n <= |binary| && shift == 7 * n < 64
      invariant Continued(binary, position, n) && Digits(binary, position, n, value)
    {
      var byte := binary[next];
      next := next + 1;
      var cur := byte % 0x80;
      if ShiftRight(ShiftLeft(cur, shift), shift) != cur {
        LostDigit(binary, position, n);
        return Err(Malformed), next;
      }
      NextDigit(binary, position, n, value);
      value := OrAbove(value, ShiftLeft(cur, shift), shift);
      if byte < 0x80 {
        if shift > 0 && cur == 0 {
          ZeroEnd(binary, position, n);
          return Err(Malformed), next;
        }
        LastDigit(binary, position, n, value);
        return Ok(value), next;
      }
      n := n + 1;
      shift := shift + 7;
      if shift > 64 {
        NoneThatLong(binary, position, n);
        return Err(Malformed), next;
      }
    }
    NoneEnds(binary, position, n);
    r := Err(Malformed);
  }

  /** At most one word is encoded at a position. */
  lemma EncodedUnique(binary: seq<Byte>, position: nat, x: nat, y: nat)
    requires EncodedAt(binary, position, x) && EncodedAt(binary, position, y)
    ensures x == y
  {
    EncodeCanonical(x);
    EncodeCanonical(y);
    EncodedBytes(binary, position, x);
    EncodedBytes(binary, position, y);
    var a, b := Encode(x), Encode(y);
    assert a[|a| - 1] == binary[position + |a| - 1] && b[|b| - 1] == binary[position + |b| - 1];
    assert |a| == |b|;
    assert a == b;
  }
}
