/**
 Time-ordered identifiers: 48 bits of milliseconds then random bytes, written in the extended-hex
 base32 of section 7 of RFC 4648, lower case and unpadded.
 */
module Identifiers {
  import opened Ordering

  // ----- numbers as digits, most significant first -----

  function Pow(base: nat, n: nat): nat {
    if n == 0 then 1 else Pow(base, n - 1) * base
  }

  function Value(base: nat, digits: seq<nat>): nat {
    if digits == [] then 0
    else Value(base, digits[..|digits| - 1]) * base + digits[|digits| - 1]
  }

  /** The last n digits of a number. */
  function Digits(base: nat, n: nat, value: nat): (digits: seq<nat>)
    requires 0 < base
    ensures |digits| == n && InBase(base, digits)
  {
    if n == 0 then [] else Digits(base, n - 1, value / base) + [value % base]
  }

  predicate InBase(base: nat, digits: seq<nat>) {
    forall i :: 0 <= i < |digits| ==> digits[i] < base
  }

  lemma {:induction false} ValueAppend(base: nat, a: seq<nat>, b: seq<nat>)
    ensures Value(base, a + b) == Value(base, a) * Pow(base, |b|) + Value(base, b)
  {
    if b == [] {
      assert a + b == a;
    } else {
      var c := b[..|b| - 1];
      assert (a + b)[..|a + b| - 1] == a + c;
      ValueAppend(base, a, c);
      Distribute(Value(base, a), Pow(base, |c|), Value(base, c), base);
    }
  }

  lemma Distribute(a: nat, p: nat, c: nat, base: nat)
    ensures (a * p + c) * base == a * (p * base) + c * base
  {
  }

  lemma {:induction false} ValueIsBounded(base: nat, digits: seq<nat>)
    requires InBase(base, digits)
    ensures Value(base, digits) < Pow(base, |digits|)
  {
    if digits != [] {
      ValueIsBounded(base, digits[..|digits| - 1]);
      Headroom(Value(base, digits[..|digits| - 1]), Pow(base, |digits| - 1), digits[|digits| - 1], base);
    }
  }

  lemma Headroom(v: nat, p: nat, d: nat, base: nat)
    requires v < p && d < base
    ensures v * base + d < p * base
  {
    assert (v + 1) * base <= p * base;
  }

  /** A lower leading part decides, whatever follows. */
  lemma LeadDecides(v: nat, w: nat, d: nat, e: nat, base: nat)
    requires d < base && e < base
    ensures v * base + d < w * base + e <==> v < w || (v == w && d < e)
    ensures v * base + d == w * base + e <==> v == w && d == e
  {
    if v < w {
      Headroom(v, w, d, base);
    } else if w < v {
      Headroom(w, v, e, base);
    }
  }

  lemma {:induction false} ValueIsInjective(base: nat, a: seq<nat>, b: seq<nat>)
    requires InBase(base, a) && InBase(base, b) && |a| == |b|
    ensures Value(base, a) == Value(base, b) <==> a == b
  {
    if a != [] {
      var n := |a| - 1;
      ValueIsInjective(base, a[..n], b[..n]);
      LeadDecides(Value(base, a[..n]), Value(base, b[..n]), a[n], b[n], base);
      assert a == a[..n] + [a[n]] && b == b[..n] + [b[n]];
    }
  }

  lemma {:induction false} DigitsRoundTrip(base: nat, n: nat, value: nat)
    requires 0 < base && value < Pow(base, n)
    ensures Value(base, Digits(base, n, value)) == value
  {
    if n > 0 {
      var rest := Digits(base, n - 1, value / base);
      assert Digits(base, n, value)[..n - 1] == rest;
      QuotientIsSmaller(value, base, Pow(base, n - 1));
      DigitsRoundTrip(base, n - 1, value / base);
    }
  }

  lemma QuotientIsSmaller(value: nat, base: nat, p: nat)
    requires 0 < base && value < p * base
    ensures value / base < p && value == (value / base) * base + value % base
  {
    TimesKeepsOrder(p, value / base, base);
  }

  lemma TimesKeepsOrder(a: nat, b: nat, k: nat)
    ensures a <= b ==> a * k <= b * k
  {
    if a <= b {
      assert (b - a) * k >= 0;
    }
  }

  // ----- the encoding -----

  const ALPHABET := "0123456789abcdefghijklmnopqrstuv"

  /** Eight bits for each byte, most significant first. */
  function Bits(bytes: seq<nat>): seq<nat> {
    if bytes == [] then [] else Bits(bytes[..|bytes| - 1]) + Digits(2, 8, bytes[|bytes| - 1])
  }

  /** How many zero bits fill the last group of five. */
  function FillerSize(bits: nat): (size: nat)
    ensures (bits + size) % 5 == 0 && size < 5
  {
    if bits % 5 == 0 then 0 else 5 - bits % 5
  }

  /** The groups of five bits, each as a number below 32. */
  function Groups(bits: seq<nat>): seq<nat>
    requires |bits| % 5 == 0
  {
    if bits == [] then [] else Groups(bits[..|bits| - 5]) + [Value(2, bits[|bits| - 5..])]
  }

  function Quintets(bytes: seq<nat>): seq<nat> {
    var bits := Bits(bytes);
    Groups(bits + Digits(2, FillerSize(|bits|), 0))
  }

  function Symbols(groups: seq<nat>): string
    requires InBase(32, groups)
  {
    seq(|groups|, i requires 0 <= i < |groups| => ALPHABET[groups[i]])
  }

  function Encode(bytes: seq<nat>): string
    requires InBase(256, bytes)
  {
    QuintetsFit(bytes);
    Symbols(Quintets(bytes))
  }

  lemma {:induction false} BitsFit(bytes: seq<nat>)
    ensures |Bits(bytes)| == 8 * |bytes| && InBase(2, Bits(bytes))
  {
    if bytes != [] {
      BitsFit(bytes[..|bytes| - 1]);
    }
  }

  lemma Pow2Of5()
    ensures Pow(2, 5) == 32
    ensures Pow(2, 8) == 256
  {
    assert Pow(2, 2) == 4;
    assert Pow(2, 4) == 16;
    assert Pow(2, 6) == 64;
  }

  lemma {:induction false} GroupsLength(bits: seq<nat>)
    requires |bits| % 5 == 0
    ensures |Groups(bits)| == |bits| / 5
  {
    if bits != [] {
      GroupsLength(bits[..|bits| - 5]);
    }
  }

  lemma GroupIsBelow32(group: seq<nat>)
    requires |group| == 5 && InBase(2, group)
    ensures Value(2, group) < 32
  {
    ValueIsBounded(2, group);
    Pow2Of5();
  }

  lemma LastGroup(bits: seq<nat>, n: nat)
    requires n + 5 == |bits|
    ensures Value(2, bits) == Value(2, bits[..n]) * 32 + Value(2, bits[n..])
  {
    assert bits == bits[..n] + bits[n..];
    ValueAppend(2, bits[..n], bits[n..]);
    Pow2Of5();
  }

  lemma LastDigit(base: nat, digits: seq<nat>, last: nat)
    ensures Value(base, digits + [last]) == Value(base, digits) * base + last
  {
    assert (digits + [last])[..|digits|] == digits;
  }

  lemma {:induction false} GroupsFit(bits: seq<nat>)
    requires |bits| % 5 == 0 && InBase(2, bits)
    ensures InBase(32, Groups(bits))
    ensures Value(32, Groups(bits)) == Value(2, bits)
  {
    if bits != [] {
      var n := |bits| - 5;
      GroupsFit(bits[..n]);
      GroupIsBelow32(bits[n..]);
      LastGroup(bits, n);
      LastDigit(32, Groups(bits[..n]), Value(2, bits[n..]));
    }
  }

  lemma {:induction false} BitsKeepValue(bytes: seq<nat>)
    requires InBase(256, bytes)
    ensures Value(2, Bits(bytes)) == Value(256, bytes)
  {
    if bytes != [] {
      var last := bytes[|bytes| - 1];
      BitsKeepValue(bytes[..|bytes| - 1]);
      Pow2Of5();
      DigitsRoundTrip(2, 8, last);
      ValueAppend(2, Bits(bytes[..|bytes| - 1]), Digits(2, 8, last));
    }
  }

  /** The quintets are the bytes read as one number, shifted left by the filler. */
  lemma QuintetsFit(bytes: seq<nat>)
    ensures InBase(32, Quintets(bytes))
    ensures |Quintets(bytes)| == (8 * |bytes| + FillerSize(8 * |bytes|)) / 5
    ensures InBase(256, bytes) ==> Value(32, Quintets(bytes)) == Value(256, bytes) * Pow(2, FillerSize(8 * |bytes|))
  {
    BitsFit(bytes);
    var bits := Bits(bytes);
    var filler := Digits(2, FillerSize(|bits|), 0);
    assert InBase(2, bits + filler);
    GroupsLength(bits + filler);
    GroupsFit(bits + filler);
    ValueAppend(2, bits, filler);
    PowIsPositive(2, |filler|);
    DigitsRoundTrip(2, |filler|, 0);
    if InBase(256, bytes) {
      BitsKeepValue(bytes);
    }
  }

  lemma {:induction false} PowIsPositive(base: nat, n: nat)
    requires 0 < base
    ensures 0 < Pow(base, n)
  {
    if n > 0 {
      PowIsPositive(base, n - 1);
    }
  }

  // ----- order -----

  lemma {:induction false} LexByLast(a: string, b: string, x: char, y: char)
    requires |a| == |b|
    ensures LexLess(a + [x], b + [y]) <==> LexLess(a, b) || (a == b && x < y)
  {
    if a == [] {
      assert ([x])[1..] == [] && ([y])[1..] == [];
      assert a + [x] == [x] && b + [y] == [y];
    } else {
      assert (a + [x])[1..] == a[1..] + [x] && (b + [y])[1..] == b[1..] + [y];
      LexByLast(a[1..], b[1..], x, y);
      assert a == [a[0]] + a[1..] && b == [b[0]] + b[1..];
    }
  }

  lemma AlphabetAscends(i: nat, j: nat)
    requires i < 32 && j < 32
    ensures ALPHABET[i] < ALPHABET[j] <==> i < j
    ensures ALPHABET[i] == ALPHABET[j] <==> i == j
  {
    assert forall k :: 0 <= k < 32 ==>
      ALPHABET[k] as int == if k < 10 then '0' as int + k else 'a' as int + (k - 10);
  }

  lemma SymbolsSplit(a: seq<nat>)
    requires InBase(32, a) && a != []
    ensures var n := |a| - 1; Symbols(a) == Symbols(a[..n]) + [ALPHABET[a[n]]]
  {
  }

  lemma {:induction false} SymbolsAreInjective(a: seq<nat>, b: seq<nat>)
    requires InBase(32, a) && InBase(32, b) && |a| == |b|
    ensures Symbols(a) == Symbols(b) <==> a == b
  {
    if a != [] && Symbols(a) == Symbols(b) {
      var n := |a| - 1;
      SymbolsSplit(a);
      SymbolsSplit(b);
      assert Symbols(a)[n] == Symbols(b)[n] && Symbols(a)[..n] == Symbols(a[..n]) && Symbols(b)[..n] == Symbols(b[..n]);
      SymbolsAreInjective(a[..n], b[..n]);
      AlphabetAscends(a[n], b[n]);
      assert a == a[..n] + [a[n]] && b == b[..n] + [b[n]];
    }
  }

  lemma {:induction false} SymbolsKeepOrder(a: seq<nat>, b: seq<nat>)
    requires InBase(32, a) && InBase(32, b) && |a| == |b|
    ensures LexLess(Symbols(a), Symbols(b)) <==> Value(32, a) < Value(32, b)
  {
    if a != [] {
      var n := |a| - 1;
      SymbolsKeepOrder(a[..n], b[..n]);
      SymbolsAreInjective(a[..n], b[..n]);
      SymbolsSplit(a);
      SymbolsSplit(b);
      LexByLast(Symbols(a[..n]), Symbols(b[..n]), ALPHABET[a[n]], ALPHABET[b[n]]);
      AlphabetAscends(a[n], b[n]);
      LeadDecides(Value(32, a[..n]), Value(32, b[..n]), a[n], b[n], 32);
      ValueIsInjective(32, a[..n], b[..n]);
    }
  }

  /** Encoding keeps the order of equally long byte strings, and keeps different ones different. */
  lemma EncodingKeepsOrder(a: seq<nat>, b: seq<nat>)
    requires InBase(256, a) && InBase(256, b) && |a| == |b|
    ensures LexLess(Encode(a), Encode(b)) <==> Value(256, a) < Value(256, b)
    ensures Encode(a) == Encode(b) <==> a == b
  {
    QuintetsFit(a);
    QuintetsFit(b);
    PowIsPositive(2, FillerSize(8 * |a|));
    ScalingKeepsOrder(Value(256, a), Value(256, b), Pow(2, FillerSize(8 * |a|)));
    SymbolsKeepOrder(Quintets(a), Quintets(b));
    SymbolsAreInjective(Quintets(a), Quintets(b));
    ValueIsInjective(256, a, b);
  }

  lemma ScalingKeepsOrder(v: nat, w: nat, p: nat)
    requires 0 < p
    ensures v * p < w * p <==> v < w
    ensures v * p == w * p <==> v == w
  {
    if v < w {
      assert (w - v) * p > 0;
    } else if w < v {
      assert (v - w) * p > 0;
    }
  }

  // ----- identifiers -----

  const RANDOM_BYTES := 10

  /** The timestamp keeps only its low 48 bits. */
  function NewId(kind: string, milliseconds: nat, random: seq<nat>): string
    requires |random| == RANDOM_BYTES && InBase(256, random)
  {
    kind + "_" + Encode(Digits(256, 6, milliseconds) + random)
  }

  /** Eight bytes, the most significant first. */
  method PutBigEndian(timestamp: array<nat>, milliseconds: nat)
    requires timestamp.Length == 8
    modifies timestamp
    ensures timestamp[..] == Digits(256, 8, milliseconds)
  {
    var rest := milliseconds;
    var i := 8;
    while i > 0
      invariant 0 <= i <= 8
      invariant Digits(256, 8, milliseconds) == Digits(256, i, rest) + timestamp[i..]
    {
      ghost var after := timestamp[i..];
      timestamp[i - 1] := rest % 256;
      assert timestamp[i - 1..] == [rest % 256] + after;
      rest := rest / 256;
      i := i - 1;
    }
  }

  /** Fills the buffer in place: six bytes of big-endian time, then the random bytes. */
  method New(kind: string, milliseconds: nat, random: seq<nat>) returns (id: string)
    requires |random| == RANDOM_BYTES && InBase(256, random)
    ensures id == NewId(kind, milliseconds, random)
  {
    var timestamp := new nat[8];
    PutBigEndian(timestamp, milliseconds);
    ghost var time := Digits(256, 6, milliseconds);
    assert timestamp[2..] == time by {
      DropDigits(256, 2, 6, milliseconds);
      assert timestamp[2..] == timestamp[..][2..];
    }
    var buffer := new nat[6 + RANDOM_BYTES];
    forall k | 0 <= k < 6 {
      buffer[k] := timestamp[k + 2];
    }
    forall k | 0 <= k < RANDOM_BYTES {
      buffer[6 + k] := random[k];
    }
    assert buffer[..] == time + random;
    id := kind + "_" + Encode(buffer[..]);
  }

  lemma {:induction false} DropDigits(base: nat, high: nat, low: nat, value: nat)
    requires 0 < base
    ensures Digits(base, high + low, value)[high..] == Digits(base, low, value)
  {
    if low > 0 {
      DropDigits(base, high, low - 1, value / base);
      assert high + low > 0;
    }
  }

  lemma {:induction false} DigitsIgnoreHigh(base: nat, n: nat, value: nat)
    requires 1 < base
    ensures 0 < Pow(base, n)
    ensures Digits(base, n, value) == Digits(base, n, value % Pow(base, n))
  {
    PowIsPositive(base, n);
    if n > 0 {
      var p := Pow(base, n - 1);
      PowIsPositive(base, n - 1);
      var low := value % (p * base);
      ModSplits(value, base, p);
      DigitsIgnoreHigh(base, n - 1, value / base);
      DigitsIgnoreHigh(base, n - 1, low / base);
      assert Digits(base, n, value) == Digits(base, n - 1, value / base) + [value % base];
      assert Digits(base, n, low) == Digits(base, n - 1, low / base) + [low % base];
    }
  }

  lemma ModSplits(value: nat, base: nat, p: nat)
    requires 0 < base && 0 < p
    ensures 0 < p * base
    ensures (value % (p * base)) % base == value % base
    ensures (value % (p * base)) / base % p == value / base % p
  {
    assert 0 < p * base;
    var q := value / (p * base);
    var m := value % (p * base);
    assert value == q * (p * base) + m;
    assert q * (p * base) == (q * p) * base;
    ShiftedMod(q * p, m, base);
    ShiftedMod(q, m / base, p);
  }

  lemma ShiftedMod(k: nat, m: nat, d: nat)
    requires 0 < d
    ensures (k * d + m) % d == m % d
    ensures (k * d + m) / d == k + m / d
  {
    var n := k * d + m;
    var q, r := k + m / d, m % d;
    assert n == q * d + r;
    QuotientIsUnique(n, d, q, r);
  }

  lemma QuotientIsUnique(n: nat, d: nat, q: nat, r: nat)
    requires 0 < d && r < d && n == q * d + r
    ensures n / d == q && n % d == r
  {
    LeadDecides(n / d, q, n % d, r, d);
    assert n == (n / d) * d + n % d;
  }

  lemma {:induction false} LexAfterPrefix(prefix: string, a: string, b: string)
    ensures LexLess(prefix + a, prefix + b) <==> LexLess(a, b)
    ensures prefix + a == prefix + b <==> a == b
  {
    if prefix == [] {
      assert prefix + a == a && prefix + b == b;
    } else {
      LexAfterPrefix(prefix[1..], a, b);
      assert (prefix + a)[1..] == prefix[1..] + a && (prefix + b)[1..] == prefix[1..] + b;
      assert prefix + a == [prefix[0]] + (prefix[1..] + a) && prefix + b == [prefix[0]] + (prefix[1..] + b);
    }
  }

  lemma IdsCompareAsNumbers(kind: string, m1: nat, r1: seq<nat>, m2: nat, r2: seq<nat>)
    requires |r1| == |r2| == RANDOM_BYTES && InBase(256, r1) && InBase(256, r2)
    ensures LexLess(NewId(kind, m1, r1), NewId(kind, m2, r2))
      <==> Value(256, Digits(256, 6, m1) + r1) < Value(256, Digits(256, 6, m2) + r2)
    ensures NewId(kind, m1, r1) == NewId(kind, m2, r2)
      <==> Digits(256, 6, m1) + r1 == Digits(256, 6, m2) + r2
  {
    EncodedAfterKind(kind, Digits(256, 6, m1) + r1, Digits(256, 6, m2) + r2);
  }

  lemma EncodedAfterKind(kind: string, a: seq<nat>, b: seq<nat>)
    requires |a| == |b| && InBase(256, a) && InBase(256, b)
    ensures LexLess(kind + "_" + Encode(a), kind + "_" + Encode(b)) <==> Value(256, a) < Value(256, b)
    ensures kind + "_" + Encode(a) == kind + "_" + Encode(b) <==> a == b
  {
    EncodingKeepsOrder(a, b);
    LexAfterPrefix(kind + "_", Encode(a), Encode(b));
  }

  /**
   Identifiers of one kind sort by time, whatever the random bytes, exactly when the low 48 bits of
   the times do. Below 2^48 milliseconds that is the time itself.
   */
  lemma SortByTime(kind: string, m1: nat, m2: nat)
    ensures 0 < Pow(256, 6)
    ensures (forall r1: seq<nat>, r2: seq<nat> ::
               |r1| == |r2| == RANDOM_BYTES && InBase(256, r1) && InBase(256, r2) ==>
                 LexLess(NewId(kind, m1, r1), NewId(kind, m2, r2)))
            <==> m1 % Pow(256, 6) < m2 % Pow(256, 6)
  {
    PowIsPositive(256, 6);
    DigitsIgnoreHigh(256, 6, m1);
    DigitsIgnoreHigh(256, 6, m2);
    DigitsRoundTrip(256, 6, m1 % Pow(256, 6));
    DigitsRoundTrip(256, 6, m2 % Pow(256, 6));
    if m1 % Pow(256, 6) < m2 % Pow(256, 6) {
      forall r1: seq<nat>, r2: seq<nat>
        | |r1| == |r2| == RANDOM_BYTES && InBase(256, r1) && InBase(256, r2)
        ensures LexLess(NewId(kind, m1, r1), NewId(kind, m2, r2))
      {
        TimeLeads(m1, r1, m2, r2);
        IdsCompareAsNumbers(kind, m1, r1, m2, r2);
      }
    } else {
      var zeros := Digits(256, RANDOM_BYTES, 0);
      IdsCompareAsNumbers(kind, m1, zeros, m2, zeros);
      TimeLeads(m1, zeros, m2, zeros);
    }
  }

  lemma TimeLeads(m1: nat, r1: seq<nat>, m2: nat, r2: seq<nat>)
    requires |r1| == |r2| == RANDOM_BYTES && InBase(256, r1) && InBase(256, r2)
    ensures var t1, t2 := Value(256, Digits(256, 6, m1)), Value(256, Digits(256, 6, m2));
      Value(256, Digits(256, 6, m1) + r1) < Value(256, Digits(256, 6, m2) + r2)
      <==> t1 < t2 || (t1 == t2 && Value(256, r1) < Value(256, r2))
  {
    ValueAppend(256, Digits(256, 6, m1), r1);
    ValueAppend(256, Digits(256, 6, m2), r2);
    ValueIsBounded(256, r1);
    ValueIsBounded(256, r2);
    LeadDecides(Value(256, Digits(256, 6, m1)), Value(256, Digits(256, 6, m2)), Value(256, r1), Value(256, r2),
                Pow(256, RANDOM_BYTES));
  }

  /** Two identifiers of one kind are equal exactly when their sixteen bytes are. */
  lemma IdsAreDistinct(kind: string, m1: nat, r1: seq<nat>, m2: nat, r2: seq<nat>)
    requires |r1| == |r2| == RANDOM_BYTES && InBase(256, r1) && InBase(256, r2)
    ensures NewId(kind, m1, r1) == NewId(kind, m2, r2) <==> m1 % Pow(256, 6) == m2 % Pow(256, 6) && r1 == r2
  {
    IdsCompareAsNumbers(kind, m1, r1, m2, r2);
    PowIsPositive(256, 6);
    DigitsIgnoreHigh(256, 6, m1);
    DigitsIgnoreHigh(256, 6, m2);
    DigitsRoundTrip(256, 6, m1 % Pow(256, 6));
    DigitsRoundTrip(256, 6, m2 % Pow(256, 6));
    var d1, d2 := Digits(256, 6, m1), Digits(256, 6, m2);
    if d1 + r1 == d2 + r2 {
      assert (d1 + r1)[..6] == d1 && (d2 + r2)[..6] == d2;
      assert (d1 + r1)[6..] == r1 && (d2 + r2)[6..] == r2;
    }
  }

  /** An identifier is its kind, an underscore and 26 characters from the alphabet, in lower case. */
  lemma IdentifierLooksSo(kind: string, milliseconds: nat, random: seq<nat>)
    requires |random| == RANDOM_BYTES && InBase(256, random)
    ensures var id := NewId(kind, milliseconds, random);
      && |id| == |kind| + 27 && id[..|kind|] == kind && id[|kind|] == '_'
      && forall i :: |kind| < i < |id| ==> '0' <= id[i] <= '9' || 'a' <= id[i] <= 'v'
  {
    var bytes := Digits(256, 6, milliseconds) + random;
    QuintetsFit(bytes);
    var body := Encode(bytes);
    assert |body| == 26;
    forall i | 0 <= i < |body| ensures '0' <= body[i] <= '9' || 'a' <= body[i] <= 'v' {
      AlphabetIsPlain(Quintets(bytes)[i]);
    }
    var id := NewId(kind, milliseconds, random);
    assert id == kind + "_" + body;
    assert forall i :: |kind| < i < |id| ==> id[i] == body[i - |kind| - 1];
  }

  lemma AlphabetIsPlain(i: nat)
    requires i < 32
    ensures '0' <= ALPHABET[i] <= '9' || 'a' <= ALPHABET[i] <= 'v'
  {
    assert forall k :: 0 <= k < 32 ==>
      ALPHABET[k] as int == if k < 10 then '0' as int + k else 'a' as int + (k - 10);
  }
}
