/** Bytes, 64-bit integers and their decimal text: the vocabulary of the RESP
    wire format. `Decimal` stands for `fmt`'s `%d` on a non-negative value and
    `ParseInt` for `strconv.ParseInt(s, 10, 64)`. */
module Wire {
  import opened Wrappers

  newtype byte = b: int | 0 <= b < 256

  /** Go's int64, the type of an integer reply and of a multi-bulk count. */
  newtype int64 = x: int | -0x8000_0000_0000_0000 <= x < 0x8000_0000_0000_0000

  type Bytes = seq<byte>

  const CR: byte := 13
  const LF: byte := 10
  const CRLF: Bytes := [CR, LF]
  const Plus: byte := 43    // '+'
  const Minus: byte := 45   // '-'
  const Colon: byte := 58   // ':'
  const Dollar: byte := 36  // '$'
  const Star: byte := 42    // '*'
  const Zero: byte := 48    // '0'

  /** 2^63: one more than the largest int64. */
  const Int64Bound: int := 0x8000_0000_0000_0000

  /** The bytes of a string literal, one byte per character (the literals
      used here are all ASCII). */
  function Ascii(s: string): (b: Bytes)
    ensures |b| == |s|
  {
    seq(|s|, i requires 0 <= i < |s| => (s[i] as int % 256) as byte)
  }

  /** The bytes of s from index lo up to, not including, index hi, taken
      one at a time. */
  function Slice(s: Bytes, lo: nat, hi: nat): (r: Bytes)
    requires lo <= hi <= |s|
    ensures |r| == hi - lo
    decreases hi - lo
  {
    if lo == hi then [] else [s[lo]] + Slice(s, lo + 1, hi)
  }

  /** `Slice` is Dafny's subsequence s[lo..hi]. */
  lemma {:induction false} SliceIsSubsequence(s: Bytes, lo: nat, hi: nat)
    requires lo <= hi <= |s|
    ensures Slice(s, lo, hi) == s[lo..hi]
    decreases hi - lo
  {
    if lo < hi {
      SliceIsSubsequence(s, lo + 1, hi);
      assert s[lo..hi] == [s[lo]] + s[lo + 1..hi];
    }
  }

  /** Byte k of a slice is byte lo + k of s. */
  lemma {:induction false} SliceAt(s: Bytes, lo: nat, hi: nat, k: nat)
    requires lo <= hi <= |s| && k < hi - lo
    ensures Slice(s, lo, hi)[k] == s[lo + k]
  {
    SliceIsSubsequence(s, lo, hi);
  }

  /** A slice is the slice up to any midpoint, then the slice after it. */
  lemma {:induction false} SliceSplit(s: Bytes, lo: nat, mid: nat, hi: nat)
    requires lo <= mid <= hi <= |s|
    ensures Slice(s, lo, hi) == Slice(s, lo, mid) + Slice(s, mid, hi)
  {
    SliceIsSubsequence(s, lo, hi);
    SliceIsSubsequence(s, lo, mid);
    SliceIsSubsequence(s, mid, hi);
    assert s[lo..hi] == s[lo..mid] + s[mid..hi];
  }

  /** Two concatenations whose first parts have the same length are equal
      exactly when both parts are. */
  lemma {:induction false} AppendParts<T>(x: seq<T>, y: seq<T>, a: seq<T>, b: seq<T>)
    requires |x| == |a|
    ensures x + y == a + b <==> x == a && y == b
  {
    if x + y == a + b {
      assert x == (x + y)[..|x|] && a == (a + b)[..|a|];
      assert y == (x + y)[|x|..] && b == (a + b)[|a|..];
    }
  }

  predicate IsDigit(b: byte) {
    Zero <= b <= Zero + 9
  }

  /** Every byte of s is a decimal digit. */
  predicate AllDigits(s: Bytes) {
    forall i :: 0 <= i < |s| ==> IsDigit(s[i])
  }

  /** The decimal text of n: most significant digit first, no leading zero. */
  function Decimal(n: nat): (d: Bytes)
    ensures |d| > 0
  {
    if n < 10 then [Zero + n as byte] else Decimal(n / 10) + [Zero + (n % 10) as byte]
  }

  /** The decimal text is made of digits only. */
  lemma {:induction false} DecimalDigits(n: nat)
    ensures AllDigits(Decimal(n))
  {
    if n >= 10 {
      DecimalDigits(n / 10);
    }
  }

  /** A run of digits holds no LF. */
  lemma {:induction false} DigitsHaveNoLF(s: Bytes)
    requires AllDigits(s)
    ensures LF !in s
  {
  }

  /** s holds the bytes b from position pos on: b fits, its first byte is
      the byte at pos, and the rest of b follows. */
  predicate HoldsAt(s: Bytes, pos: nat, b: Bytes) {
    pos + |b| <= |s| && forall k :: 0 <= k < |b| ==> s[pos + k] == b[k]
  }

  /** HoldsAt says that b fits and that every byte of b is the byte of s at
      the same offset from pos, and nothing more. */
  lemma {:induction false} HoldsAtBytes(s: Bytes, pos: nat, b: Bytes)
    ensures HoldsAt(s, pos, b) <==> pos + |b| <= |s| && forall k :: 0 <= k < |b| ==> s[pos + k] == b[k]
  {
  }

  /** The bytes that s holds from pos are the slice of s there. */
  lemma {:induction false} HoldsAtSlice(s: Bytes, pos: nat, b: Bytes)
    requires HoldsAt(s, pos, b)
    ensures Slice(s, pos, pos + |b|) == b
  {
    HoldsAtBytes(s, pos, b);
    forall k | 0 <= k < |b|
      ensures Slice(s, pos, pos + |b|)[k] == b[k]
    {
      SliceAt(s, pos, pos + |b|, k);
    }
  }

  /** Every input holds itself from its start. */
  lemma {:induction false} HoldsAtStart(s: Bytes)
    ensures HoldsAt(s, 0, s)
  {
    HoldsAtBytes(s, 0, s);
    forall k | 0 <= k < |s|
      ensures s[0 + k] == s[k]
    {
    }
  }

  /** a + b holds at pos exactly when a holds there and b right after it. */
  lemma {:induction false} Concatenated(s: Bytes, pos: nat, a: Bytes, b: Bytes)
    ensures HoldsAt(s, pos, a + b) <==> HoldsAt(s, pos, a) && HoldsAt(s, pos + |a|, b)
  {
    var ab := a + b;
    HoldsAtBytes(s, pos, ab);
    HoldsAtBytes(s, pos, a);
    HoldsAtBytes(s, pos + |a|, b);
    if HoldsAt(s, pos, ab) {
      forall k | 0 <= k < |a|
        ensures s[pos + k] == a[k]
      {
        assert ab[k] == a[k];
      }
      forall k | 0 <= k < |b|
        ensures s[pos + |a| + k] == b[k]
      {
        assert s[pos + (|a| + k)] == ab[|a| + k];
      }
    }
    if HoldsAt(s, pos, a) && HoldsAt(s, pos + |a|, b) {
      forall k | 0 <= k < |ab|
        ensures s[pos + k] == ab[k]
      {
        if k >= |a| {
          assert s[pos + |a| + (k - |a|)] == b[k - |a|];
        }
      }
    }
  }

  /** The number that the bytes of s from lo up to hi denote as decimal
      digits, or None when one of them is not a digit. */
  function ParseDigits(s: Bytes, lo: nat, hi: nat): Option<nat>
    requires lo <= hi <= |s|
    decreases hi - lo
  {
    if hi == lo then Some(0)
    else
      match ParseDigits(s, lo, hi - 1)
      case None => None
      case Some(v) => if IsDigit(s[hi - 1]) then Some(v * 10 + (s[hi - 1] - Zero) as int) else None
  }

  /** Only the bytes in the range count: a range holding the first k bytes
      of t parses as those k bytes of t do. */
  lemma {:induction false} ParseDigitsSame(s: Bytes, lo: nat, t: Bytes, k: nat)
    requires lo + k <= |s| && k <= |t|
    requires forall i :: lo <= i < lo + k ==> s[i] == t[i - lo]
    ensures ParseDigits(s, lo, lo + k) == ParseDigits(t, 0, k)
  {
    if k > 0 {
      ParseDigitsSame(s, lo, t, k - 1);
      assert s[lo + k - 1] == t[k - 1];
    }
  }

  /** `strconv.ParseInt(string(s[lo:hi]), 10, 64)`: an optional sign, then
      at least one decimal digit and nothing else, and a value that fits in
      an int64; anything else is a parse failure. */
  function ParseInt(s: Bytes, lo: nat, hi: nat): Option<int64>
    requires lo <= hi <= |s|
  {
    var signed := lo < hi && (s[lo] == Minus || s[lo] == Plus);
    var first := if signed then lo + 1 else lo;
    if first == hi then None
    else
      match ParseDigits(s, first, hi)
      case None => None
      case Some(m) =>
        var v: int := if signed && s[lo] == Minus then -(m as int) else m;
        if -Int64Bound <= v < Int64Bound then Some(v as int64) else None
  }

  function Pow10(k: nat): nat {
    if k == 0 then 1 else 10 * Pow10(k - 1)
  }

  /** Reading back the digits that `Decimal` writes gives the number again. */
  lemma {:induction false} DecimalValue(n: nat)
    ensures ParseDigits(Decimal(n), 0, |Decimal(n)|) == Some(n)
  {
    if n >= 10 {
      var front, last := Decimal(n / 10), Zero + (n % 10) as byte;
      var d := Decimal(n);
      assert d == front + [last] && d[|front|] == last;
      DecimalValue(n / 10);
      ParseDigitsSame(d, 0, front, |front|);
    }
  }

  /** The decimal text of an int64: `fmt`'s `%d`, with a minus sign when it
      is negative. */
  function SignedDecimal(n: int64): Bytes {
    if n < 0 then [Minus] + Decimal(-(n as int)) else Decimal(n as int)
  }

  /** `ParseInt` reads the decimal text of an int64 back as that very
      number, wherever it stands in the input. */
  lemma {:induction false} ParseSignedDecimal(s: Bytes, lo: nat, n: int64)
    requires HoldsAt(s, lo, SignedDecimal(n))
    ensures lo + |SignedDecimal(n)| <= |s|
    ensures ParseInt(s, lo, lo + |SignedDecimal(n)|) == Some(n)
  {
    var t := SignedDecimal(n);
    var m: nat := if n < 0 then -(n as int) else n as int;
    var d := Decimal(m);
    var first := if n < 0 then lo + 1 else lo;
    HoldsAtBytes(s, lo, t);
    DecimalDigits(m);
    DecimalValue(m);
    assert IsDigit(d[0]);
    assert s[lo] == t[0];
    forall i | first <= i < first + |d|
      ensures s[i] == d[i - first]
    {
      assert s[lo + (i - lo)] == t[i - lo];
    }
    ParseDigitsSame(s, first, d, |d|);
  }

  /** The decimal text of a non-negative int64 is its own `SignedDecimal`. */
  lemma {:induction false} ParseDecimal(s: Bytes, lo: nat, n: nat)
    requires n < Int64Bound && HoldsAt(s, lo, Decimal(n))
    ensures lo + |Decimal(n)| <= |s|
    ensures ParseInt(s, lo, lo + |Decimal(n)|) == Some(n as int64)
  {
    assert SignedDecimal(n as int64) == Decimal(n);
    ParseSignedDecimal(s, lo, n as int64);
  }

  /** A number below 10^k has at most k decimal digits. */
  lemma {:induction false} DecimalLength(n: nat, k: nat)
    requires 0 < k && n < Pow10(k)
    ensures |Decimal(n)| <= k
  {
    if n >= 10 {
      assert Pow10(1) == 10;
      assert k > 1;
      assert n / 10 < Pow10(k - 1);
      DecimalLength(n / 10, k - 1);
    }
  }

  /** The magnitude of every int64, 2^63 included, has at most 19 decimal
      digits. */
  lemma {:induction false} Int64Digits(n: nat)
    requires n <= Int64Bound
    ensures |Decimal(n)| <= 19
  {
    assert Pow10(5) == 100_000;
    assert Pow10(10) == 10_000_000_000;
    assert Pow10(15) == 1_000_000_000_000_000;
    assert Pow10(19) == 10_000_000_000_000_000_000;
    DecimalLength(n, 19);
  }
}
