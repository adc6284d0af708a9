/**
 * `itoa`: the base-N rendering of an unsigned number used for diagnostics.
 *
 * The source fills a 35-character buffer from the back: a terminating NUL,
 * then the digits least significant first (a do-while, so zero still gets one
 * digit), then a letter naming the base (`b`, `o`, `d`, `x` for 2, 8, 10, 16;
 * none for other bases), then a leading `'0'`.  It returns a pointer to the
 * first character written; here that pointer is an index into the buffer.
 */
module Text {
  import opened Wrappers

  /** `hexchars`: the digit alphabet, indexed by digit value. */
  const HexChars: string := "0123456789abcdef"

  /** The digits of `n` in `base`, most significant first. */
  function Digits(base: nat, n: nat): (s: string)
    requires 2 <= base <= 16
    ensures |s| >= 1
    decreases n
  {
    (if n < base then [] else Digits(base, n / base)) + [HexChars[n % base]]
  }

  /** The letter `itoa` writes between the leading `'0'` and the digits. */
  function Prefix(base: nat): (s: string)
    ensures |s| <= 1
    ensures s != [] <==> base == 2 || base == 8 || base == 10 || base == 16
  {
    if base == 2 then "b"
    else if base == 8 then "o"
    else if base == 10 then "d"
    else if base == 16 then "x"
    else ""
  }

  /** The text `itoa` leaves in the buffer, without its terminating NUL. */
  function ItoaText(base: nat, n: nat): (s: string)
    requires 2 <= base <= 16
    ensures |s| == 1 + |Prefix(base)| + |Digits(base, n)| && s[0] == '0'
  {
    "0" + Prefix(base) + Digits(base, n)
  }

  /** The digits still to be written while `itoa` runs: none once the number is used up. */
  function Pending(base: nat, n: nat): (s: string)
    requires 2 <= base <= 16
  {
    if n == 0 then "" else Digits(base, n)
  }

  /** The last digit of `n` is `n % base`; the digits before it are those of `n / base`. */
  lemma DigitsUnfold(base: nat, n: nat)
    requires 2 <= base <= 16
    ensures Digits(base, n) == Pending(base, n / base) + [HexChars[n % base]]
  {
    DivSmall(base, n);
  }

  /** Division by the base gives zero exactly for a single-digit number, which is its own remainder. */
  lemma DivSmall(base: nat, n: nat)
    requires 2 <= base
    ensures n / base == 0 <==> n < base
    ensures n < base ==> n % base == n
  {
  }

  /** A non-zero quotient is smaller than the number; the remainder is smaller than the base. */
  lemma DivShrinks(base: nat, n: nat)
    requires 2 <= base
    ensures n / base != 0 ==> n / base < n
    ensures n % base < base
  {
    DivMod(base, n);
    DoubleAtMost(n / base, base);
  }

  /** Quotient and remainder recompose the number. */
  lemma DivMod(base: nat, n: nat)
    requires 2 <= base
    ensures (n / base) * base + n % base == n
  {
  }

  /** The character of digit `d`, computed from the character codes. */
  function DigitChar(d: nat): (c: char)
    requires d < 16
    ensures c == '0' <==> d == 0
  {
    if d < 10 then ('0' as int + d) as char else ('a' as int + d - 10) as char
  }

  /** `hexchars` holds the decimal digits and then the letters `a` to `f`. */
  lemma HexCharsAt(d: nat)
    requires d < |HexChars|
    ensures HexChars[d] == DigitChar(d)
  {
  }

  /** Regrouping a concatenation whose first part splits in two. */
  lemma Regroup(a: string, b: string, c: string, d: string)
    requires d == a + b
    ensures d + c == a + (b + c)
  {
  }

  /** The value of one digit character, `None` for a non-digit. */
  function DigitValue(c: char): (r: Option<nat>)
    ensures r.Some? ==> r.value < 16 && DigitChar(r.value) == c
  {
    if '0' <= c <= '9' then Some(c as nat - '0' as nat)
    else if 'a' <= c <= 'f' then Some(c as nat - 'a' as nat + 10)
    else None
  }

  /** Reads a digit string (most significant first) back into a number. */
  function ParseDigits(base: nat, s: string): (r: Option<nat>)
    requires 2 <= base <= 16
    decreases |s|
  {
    if s == [] then Some(0)
    else
      match ParseDigits(base, s[..|s| - 1])
      case None => None
      case Some(v) =>
        var d := DigitValue(s[|s| - 1]);
        if d.Some? && d.value < base then Some(v * base + d.value) else None
  }

  /** Reads `itoa` output back: the leading `'0'`, the base letter, then one or more digits. */
  function ParseItoa(base: nat, s: string): (r: Option<nat>)
    requires 2 <= base <= 16
  {
    var head := "0" + Prefix(base);
    if |s| > |head| && s[..|head|] == head then ParseDigits(base, s[|head|..]) else None
  }

  /** Every digit character reads back as its own index. */
  lemma DigitValueOfDigit(d: nat)
    requires d < |HexChars|
    ensures DigitValue(HexChars[d]) == Some(d)
  {
    HexCharsAt(d);
  }

  /** Parsing one more digit multiplies the value so far by the base and adds the digit. */
  lemma ParseDigitsSnoc(base: nat, t: string, v: nat, d: nat, m: nat)
    requires 2 <= base <= 16
    requires d < base && ParseDigits(base, t) == Some(v) && v * base + d == m
    ensures ParseDigits(base, t + [HexChars[d]]) == Some(m)
  {
    var s := t + [HexChars[d]];
    assert s[..|s| - 1] == t;
    DigitValueOfDigit(d);
  }

  /** The digits written for `n` read back as `n`. */
  lemma {:induction false} DigitsRoundTrip(base: nat, n: nat)
    requires 2 <= base <= 16
    ensures ParseDigits(base, Digits(base, n)) == Some(n)
    decreases n
  {
    DivShrinks(base, n);
    DivMod(base, n);
    var q: nat, r: nat := n / base, n % base;
    DigitsUnfold(base, n);
    if q != 0 {
      DigitsRoundTrip(base, q);
    }
    assert ParseDigits(base, Pending(base, q)) == Some(q);
    ParseDigitsSnoc(base, Pending(base, q), q, r, n);
  }

  /** `itoa` output reads back as the number rendered: the decoding round trip. */
  lemma ItoaRoundTrip(base: nat, n: nat)
    requires 2 <= base <= 16
    ensures ParseItoa(base, ItoaText(base, n)) == Some(n)
  {
    var head := "0" + Prefix(base);
    var s := ItoaText(base, n);
    assert s[..|head|] == head;
    assert s[|head|..] == Digits(base, n);
    DigitsRoundTrip(base, n);
  }

  /** Only zero is rendered with a leading zero digit: the rendering is the shortest one. */
  lemma {:induction false} DigitsNoLeadingZero(base: nat, n: nat)
    requires 2 <= base <= 16
    ensures Digits(base, n)[0] == '0' <==> n == 0
    decreases n
  {
    var q := n / base;
    DivSmall(base, n);
    DivShrinks(base, n);
    DigitsUnfold(base, n);
    if q != 0 {
      DigitsNoLeadingZero(base, q);
      assert Digits(base, n)[0] == Digits(base, q)[0];
    } else {
      assert Digits(base, n)[0] == HexChars[n % base];
      HexCharsAt(n % base);
    }
  }

  function Pow2(k: nat): (p: nat)
    ensures p >= 1
  {
    if k == 0 then 1 else 2 * Pow2(k - 1)
  }

  lemma {:induction false} Pow2Add(a: nat, b: nat)
    ensures Pow2(a + b) == Pow2(a) * Pow2(b)
    decreases a
  {
    if a > 0 {
      Pow2Add(a - 1, b);
    }
  }

  lemma Pow2Of32()
    ensures Pow2(32) == 0x1_0000_0000
  {
    assert Pow2(2) == 4;
    Pow2Add(2, 2);
    Pow2Add(4, 4);
    Pow2Add(8, 8);
    Pow2Add(16, 16);
  }

  /** A number below 2^k needs at most k digits in any base of at least 2. */
  lemma {:induction false} DigitsFit(base: nat, n: nat, k: nat)
    requires 2 <= base <= 16
    requires 1 <= k && n < Pow2(k)
    ensures |Digits(base, n)| <= k
    decreases k
  {
    DivSmall(base, n);
    DigitsUnfold(base, n);
    if n >= base {
      var q := n / base;
      assert Pow2(1) == 2;
      QuotientHalves(base, n, Pow2(k - 1));
      DigitsFit(base, q, k - 1);
    }
  }

  /** A 32-bit number has at most 32 digits, so they fit `itoa`'s buffer. */
  lemma DigitsFitWord(base: nat, n: nat)
    requires 2 <= base <= 16
    requires n < 0x1_0000_0000
    ensures |Digits(base, n)| <= 32
  {
    Pow2Of32();
    DigitsFit(base, n, 32);
  }

  /** Dividing by a base of at least 2 at least halves: below 2m becomes below m. */
  lemma QuotientHalves(base: nat, n: nat, m: nat)
    requires 2 <= base && n < 2 * m
    ensures n / base < m
  {
    var q := n / base;
    DivMod(base, n);
    DoubleAtMost(q, base);
  }

  lemma {:induction false} DoubleAtMost(q: nat, base: nat)
    requires 2 <= base
    ensures 2 * q <= q * base
    decreases q
  {
    if q > 0 {
      DoubleAtMost(q - 1, base);
      assert q * base == (q - 1) * base + base;
    }
  }

  /** The buffer contents `itoa` assembles back to front, regrouped. */
  lemma ItoaTextShape(base: nat, n: nat)
    requires 2 <= base <= 16
    ensures ItoaText(base, n) + ['\0'] == ['0'] + (Prefix(base) + Digits(base, n) + ['\0'])
  {
  }

  /** `*--p = c`: writes `c` just before index `p` and moves `p` onto it. */
  method PushFront(buf: array<char>, p: nat, c: char) returns (q: nat)
    requires 0 < p <= buf.Length
    modifies buf
    ensures q == p - 1
    ensures buf[q..] == [c] + old(buf[p..])
    ensures forall i :: 0 <= i < q ==> buf[i] == old(buf[i])
  {
    q := p - 1;
    buf[q] := c;
    assert buf[q..] == [c] + buf[p..];
  }

  /** The buffer size of the source: NUL, base letter, leading zero and 32 digits. */
  const BufferSize: nat := 35

  /** One digit of `itoa`'s loop: `hexchars[num % base]`, and the quotient left to render. */
  method NextDigit(base: nat, n: nat) returns (q: nat, c: char)
    requires 2 <= base <= 16
    ensures Digits(base, n) == Pending(base, q) + [c]
    ensures q != 0 ==> q < n
  {
    DivShrinks(base, n);
    DigitsUnfold(base, n);
    q, c := n / base, HexChars[n % base];
  }

  /**
   * The first half of `itoa`: the terminating NUL in the last slot and, in
   * front of it, the digits, written least significant first by the do-while
   * loop.  It leaves at least two free slots for the base letter and `'0'`.
   */
  method WriteDigits(base: nat, num: nat, buf: array<char>) returns (p: nat)
    requires buf.Length == BufferSize
    requires 2 <= base <= 16
    requires num < 0x1_0000_0000
    modifies buf
    ensures 2 <= p < BufferSize
    ensures buf[p..BufferSize - 1] == Digits(base, num) && buf[BufferSize - 1] == '\0'
    ensures forall i :: 0 <= i < p ==> buf[i] == old(buf[i])
  {
    DigitsFitWord(base, num);
    ghost var want := Digits(base, num);
    ghost var done: string := [];
    var n: nat := num;
    p := BufferSize - 1;
    buf[p] := '\0';
    while true
      invariant 3 <= p < BufferSize && |want| <= 32
      invariant buf[BufferSize - 1] == '\0'
      invariant buf[p..BufferSize - 1] == done
      invariant want == Digits(base, n) + done
      invariant forall i :: 0 <= i < p ==> buf[i] == old(buf[i])
      decreases n
    {
      var q, c := NextDigit(base, n);
      Regroup(Pending(base, q), [c], done, Digits(base, n));
      p := p - 1;
      buf[p] := c;
      done := [c] + done;
      n := q;
      if n == 0 {
        break;
      }
    }
  }

  /**
   * `itoa(base, num, buf)`.  The caller's buffer must hold 35 characters, the
   * base must index `hexchars` and make progress (2..16), and the number must
   * fit a 32-bit word, so that its digits fit the buffer.  The returned index
   * starts the rendered text, which ends in a NUL at the last slot; the slots
   * before it keep their old contents.
   */
  method Itoa(base: nat, num: nat, buf: array<char>) returns (p: nat)
    requires buf.Length == BufferSize
    requires 2 <= base <= 16
    requires num < 0x1_0000_0000
    modifies buf
    ensures p < BufferSize
    ensures buf[p..] == ItoaText(base, num) + ['\0']
    ensures buf[..p] == old(buf[..p])
  {
    p := WriteDigits(base, num, buf);
    assert buf[p..] == Digits(base, num) + ['\0'] by {
      assert buf[p..] == buf[p..BufferSize - 1] + [buf[BufferSize - 1]];
    }
    p := WriteBaseLetter(buf, p, base);
    p := PushFront(buf, p, '0');
    ItoaTextShape(base, num);
  }

  /**
   * The letter naming the base, in front of the digits: at most one of the
   * source's four base tests can hold, and other bases get no letter.
   */
  method WriteBaseLetter(buf: array<char>, p: nat, base: nat) returns (q: nat)
    requires 2 <= p <= buf.Length
    modifies buf
    ensures q == p - |Prefix(base)| && 1 <= q
    ensures buf[q..] == Prefix(base) + old(buf[p..])
    ensures forall i :: 0 <= i < q ==> buf[i] == old(buf[i])
  {
    q := p;
    if base == 2 {
      q := PushFront(buf, p, 'b');
    } else if base == 8 {
      q := PushFront(buf, p, 'o');
    } else if base == 10 {
      q := PushFront(buf, p, 'd');
    } else if base == 16 {
      q := PushFront(buf, p, 'x');
    }
  }

}
