/** Passport identifiers: a millisecond timestamp and random bits in 26 base-32 characters. */
module Ulid {
  import opened Prelude

  const ALPHABET := "0123456789ABCDEFGHJKMNPQRSTVWXYZ"
  const LENGTH := 26

  /** 32 to the power n: one factor for each character. */
  function Span(n: nat): nat {
    if n == 0 then 1 else 32 * Span(n - 1)
  }

  const RANDOM_CHARS := 16

  /** Shifting the timestamp left by 80 bits makes room for 16 characters of randomness. */
  const RANDOM_SPAN := 0x1_0000_0000_0000_0000_0000

  /** The last n base-32 digits of a value, most significant first. */
  function Encode(value: nat, n: nat): (s: string)
    ensures |s| == n
  {
    if n == 0 then "" else Encode(value / 32, n - 1) + [ALPHABET[value % 32]]
  }

  function IndexOf(s: string, ch: char): nat {
    if s == "" || s[0] == ch then 0 else 1 + IndexOf(s[1..], ch)
  }

  predicate InAlphabet(s: string) { forall ch :: ch in s ==> ch in ALPHABET }

  function Decode(s: string): nat {
    if s == "" then 0 else Decode(s[..|s| - 1]) * 32 + IndexOf(ALPHABET, s[|s| - 1])
  }

  function Reversed(s: string): string {
    if s == "" then "" else Reversed(s[1..]) + [s[0]]
  }

  /** The loop of the source: low five bits first, then reversed. */
  method NewUlid(ms: nat, random: nat) returns (id: string)
    requires random < RANDOM_SPAN
    ensures id == Encode(ms * RANDOM_SPAN + random, LENGTH)
  {
    var value := ms * RANDOM_SPAN + random;
    var chars := "";
    ghost var whole: nat := value;
    for i := 0 to LENGTH
      invariant value >= 0
      invariant Encode(whole, LENGTH) == Encode(value, LENGTH - i) + Reversed(chars)
    {
      hide Encode, Reversed;
      ghost var was := chars;
      chars := chars + [ALPHABET[value % 32]];
      ReversedSnoc(was, ALPHABET[value % 32]);
      EncodeStep(value, LENGTH - i);
      Regroup(Encode(value / 32, LENGTH - i - 1), [ALPHABET[value % 32]], Reversed(was));
      value := value / 32;
    }
    return Reversed(chars);
  }

  lemma {:induction false} ReversedSnoc(s: string, ch: char)
    ensures Reversed(s + [ch]) == [ch] + Reversed(s)
  {
    if s == "" {
    } else {
      assert (s + [ch])[1..] == s[1..] + [ch];
      ReversedSnoc(s[1..], ch);
    }
  }

  // ---------------------------------------------------------------------------
  // The alphabet
  // ---------------------------------------------------------------------------

  lemma {:induction false} Ascending(i: nat, j: nat)
    requires i < j < 32
    ensures ALPHABET[i] < ALPHABET[j]
  {
    assert Ascends(j - 1);
    if i + 1 < j {
      Ascending(i, j - 1);
    }
  }

  predicate Ascends(i: nat) { i < 31 ==> ALPHABET[i] < ALPHABET[i + 1] }

  lemma {:induction false} IndexOfSkips(s: string, t: string, ch: char)
    requires ch !in s
    ensures IndexOf(s + t, ch) == |s| + IndexOf(t, ch)
  {
    if s == "" {
      assert s + t == t;
    } else {
      assert (s + t)[1..] == s[1..] + t;
      IndexOfSkips(s[1..], t, ch);
    }
  }

  lemma IndexOfSymbol(d: nat)
    requires d < 32
    ensures IndexOf(ALPHABET, ALPHABET[d]) == d
  {
    assert ALPHABET == ALPHABET[..d] + ALPHABET[d..];
    forall i | 0 <= i < d ensures ALPHABET[..d][i] != ALPHABET[d] {
      Ascending(i, d);
    }
    IndexOfSkips(ALPHABET[..d], ALPHABET[d..], ALPHABET[d]);
  }

  // ---------------------------------------------------------------------------
  // Encoding and decoding
  // ---------------------------------------------------------------------------

  lemma DivStep(value: nat, span: nat)
    requires span > 0
    ensures (value / 32) % span * 32 + value % 32 == value % (32 * span)
  {
    var q, r := value / 32 / span, value / 32 % span;
    assert value / 32 == q * span + r;
    assert value == 32 * (q * span + r) + value % 32;
    assert value == q * (32 * span) + (r * 32 + value % 32);
    ModUnique(value, 32 * span, q, r * 32 + value % 32);
  }

  lemma ModUnique(a: nat, b: nat, q: nat, r: nat)
    requires 0 <= r < b && a == q * b + r
    ensures a % b == r && a / b == q
  {
    var q1, r1 := a / b, a % b;
    assert a == q1 * b + r1;
    if q1 < q {
      assert (q - q1) * b >= b by { MulAtLeast(q - q1, b); }
      assert false;
    } else if q1 > q {
      assert (q1 - q) * b >= b by { MulAtLeast(q1 - q, b); }
      assert false;
    }
  }

  lemma ModSmall(a: nat, b: nat)
    requires a < b
    ensures a % b == a
  {
  }

  lemma MulAtLeast(k: nat, b: nat)
    requires k >= 1
    ensures k * b >= b
  {
  }

  lemma {:induction false} SpanPositive(n: nat)
    ensures Span(n) > 0
  {
    if n == 0 {
    } else {
      SpanPositive(n - 1);
    }
  }

  /** Decoding undoes encoding, up to what does not fit. */
  lemma {:induction false} DecodeEncode(value: nat, n: nat)
    ensures Span(n) > 0 && Decode(Encode(value, n)) == value % Span(n)
  {
    hide Decode, Encode, Span, ALPHABET;
    SpanPositive(n);
    SpanStep(n);
    if n == 0 {
      EncodeNothing(value);
      DecodeNothing();
      OnlyZero(value);
    } else {
      DecodeEncode(value / 32, n - 1);
      EncodeStep(value, n);
      DecodeSnoc(Encode(value / 32, n - 1), value % 32);
      DivStep(value, Span(n - 1));
    }
  }

  lemma OnlyZero(value: nat)
    ensures value % 1 == 0
  {
  }

  lemma DecodeNothing()
    ensures Decode("") == 0
  {
  }

  lemma DecodeSnoc(s: string, d: nat)
    requires d < 32
    ensures Decode(s + [ALPHABET[d]]) == Decode(s) * 32 + d
  {
    IndexOfSymbol(d);
    hide IndexOf, ALPHABET;
    assert (s + [ALPHABET[d]])[..|s|] == s;
  }

  /** Every value below 2 to the 130 survives the round trip. */
  lemma RoundTrip(value: nat)
    requires value < 0x4_0000_0000_0000_0000_0000_0000_0000_0000
    ensures Decode(Encode(value, LENGTH)) == value
  {
    hide Decode, Encode, Span, ALPHABET;
    DecodeEncode(value, LENGTH);
    LengthSpan();
    ModSmall(value, Span(LENGTH));
  }

  lemma LengthSpan()
    ensures Span(LENGTH) == 0x4_0000_0000_0000_0000_0000_0000_0000_0000
    ensures Span(RANDOM_CHARS) == RANDOM_SPAN
  {
    assert Span(4) == 0x10_0000;
    assert Span(8) == 0x100_0000_0000;
    assert Span(12) == 0x1000_0000_0000_0000;
    assert Span(16) == 0x1_0000_0000_0000_0000_0000;
    assert Span(20) == 0x10_0000_0000_0000_0000_0000_0000;
    assert Span(24) == 0x100_0000_0000_0000_0000_0000_0000_0000;
  }

  /** ... and every string over the alphabet is the encoding of what it decodes to. */
  lemma {:induction false} EncodeDecode(s: string)
    requires InAlphabet(s)
    ensures Encode(Decode(s), |s|) == s
  {
    if s == "" {
    } else {
      var p, ch := s[..|s| - 1], s[|s| - 1];
      assert s == p + [ch];
      assert ch in s;
      EncodeDecode(p);
      var d :| 0 <= d < |ALPHABET| && ALPHABET[d] == ch;
      IndexOfSymbol(d);
      assert Decode(s) / 32 == Decode(p) && Decode(s) % 32 == d;
    }
  }

  // ---------------------------------------------------------------------------
  // Order
  // ---------------------------------------------------------------------------

  lemma {:induction false} StrLtSnoc(x: string, y: string, c: char, d: char)
    requires |x| == |y|
    ensures StrLt(x + [c], y + [d]) <==> StrLt(x, y) || (x == y && c < d)
  {
    if x == "" {
    } else {
      assert (x + [c])[1..] == x[1..] + [c] && (y + [d])[1..] == y[1..] + [d];
      assert x == [x[0]] + x[1..] && y == [y[0]] + y[1..];
      assert x + [c] == [x[0]] + (x[1..] + [c]) && y + [d] == [y[0]] + (y[1..] + [d]);
      StrLtSnoc(x[1..], y[1..], c, d);
    }
  }

  /** Encodings of equal length compare as the digits they keep do. */
  lemma {:induction false} OrderIsNumeric(a: nat, b: nat, n: nat)
    requires a < Span(n) && b < Span(n)
    ensures StrLt(Encode(a, n), Encode(b, n)) <==> a < b
  {
    SpanStep(n);
    if n == 0 {
    } else {
      hide Encode, Span, ALPHABET, StrLt;
      EncodeStep(a, n);
      EncodeStep(b, n);
      OrderIsNumeric(a / 32, b / 32, n - 1);
      EncodeInjective(a / 32, b / 32, n - 1);
      StrLtSnoc(Encode(a / 32, n - 1), Encode(b / 32, n - 1), ALPHABET[a % 32], ALPHABET[b % 32]);
      SymbolOrder(a % 32, b % 32);
    }
  }

  lemma SymbolOrder(i: nat, j: nat)
    requires i < 32 && j < 32
    ensures ALPHABET[i] < ALPHABET[j] <==> i < j
  {
    if i < j {
      Ascending(i, j);
    } else if j < i {
      Ascending(j, i);
    }
  }

  lemma EncodeInjective(a: nat, b: nat, n: nat)
    requires a < Span(n) && b < Span(n)
    ensures Encode(a, n) == Encode(b, n) <==> a == b
  {
    hide Decode, Encode, Span, ALPHABET;
    DecodeEncode(a, n);
    DecodeEncode(b, n);
    ModSmall(a, Span(n));
    ModSmall(b, Span(n));
  }

  lemma BelowSpan(ms: nat, random: nat)
    requires ms < 0x4_0000_0000_0000 && random < RANDOM_SPAN
    ensures ms * RANDOM_SPAN + random < Span(LENGTH)
  {
    LengthSpan();
  }

  /** A later millisecond always gives a larger identifier, whatever the random bits are. */
  lemma LaterIsLarger(ms: nat, random: nat, ms': nat, random': nat)
    requires ms < ms' < 0x4_0000_0000_0000
    requires random < RANDOM_SPAN && random' < RANDOM_SPAN
    ensures StrLt(Encode(ms * RANDOM_SPAN + random, LENGTH), Encode(ms' * RANDOM_SPAN + random', LENGTH))
  {
    hide Encode, Span, StrLt;
    BelowSpan(ms, random);
    BelowSpan(ms', random');
    OrderIsNumeric(ms * RANDOM_SPAN + random, ms' * RANDOM_SPAN + random', LENGTH);
  }

  lemma SplitDigit(high: nat, low: nat, span: nat)
    ensures (high * (32 * span) + low) / 32 == high * span + low / 32
    ensures (high * (32 * span) + low) % 32 == low % 32
  {
    var part := high * span;
    assert high * (32 * span) == 32 * part;
  }

  /** The encoding splits: the timestamp fills the front characters and the random bits the rest. */
  lemma {:induction false} EncodeSplits(high: nat, low: nat, m: nat, n: nat)
    requires low < Span(n)
    ensures Encode(high * Span(n) + low, m + n) == Encode(high, m) + Encode(low, n)
    decreases n
  {
    hide Encode, Span;
    if n > 0 {
      var span := Span(n - 1);
      assert Span(n) == 32 * span by { SpanStep(n); }
      var value, rest := high * (32 * span) + low, high * span + low / 32;
      SplitDigit(high, low, span);
      EncodeSplits(high, low / 32, m, n - 1);
      EncodeStep(value, m + n);
      EncodeStep(low, n);
      Regroup(Encode(high, m), Encode(low / 32, n - 1), [ALPHABET[low % 32]]);
    } else {
      EncodeNothing(low);
      assert Span(0) == 1 by { SpanStep(0); }
      assert Encode(high, m) + [] == Encode(high, m);
    }
  }

  lemma SpanStep(n: nat)
    ensures Span(n) == if n == 0 then 1 else 32 * Span(n - 1)
  {
  }

  lemma EncodeNothing(value: nat)
    ensures Encode(value, 0) == []
  {
  }

  lemma EncodeStep(value: nat, n: nat)
    requires n > 0
    ensures Encode(value, n) == Encode(value / 32, n - 1) + [ALPHABET[value % 32]]
  {
  }

  lemma Regroup(a: string, b: string, c: string)
    ensures (a + b) + c == a + (b + c)
  {
  }

  /** An identifier is ten characters of timestamp followed by sixteen of randomness. */
  lemma Layout(ms: nat, random: nat)
    requires random < RANDOM_SPAN
    ensures Encode(ms * RANDOM_SPAN + random, LENGTH)
         == Encode(ms, LENGTH - RANDOM_CHARS) + Encode(random, RANDOM_CHARS)
  {
    LengthSpan();
    EncodeSplits(ms, random, LENGTH - RANDOM_CHARS, RANDOM_CHARS);
  }
}
