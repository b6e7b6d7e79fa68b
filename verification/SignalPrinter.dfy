/**
  The signal number onFatalSignal writes (src/main.cpp): decimal digits filled
  backwards into an 8-byte buffer that ends in a newline.
 */
module SignalPrinter {
  import opened Decimal

  const SIZE: nat := 8

  /** What reaches the file descriptor: the numeral, or its last seven digits when it has more. */
  function Emitted(n: nat): string {
    var s := Numeral(n);
    (if |s| <= SIZE - 1 then s else s[|s| - (SIZE - 1)..]) + "\n"
  }

  /** Writing the digits of n in front of what is there, the last digit first. */
  function Fill(n: nat, tail: string): string
    decreases n
  {
    if n == 0 then tail else Fill(n / 10, [Digit(n % 10)] + tail)
  }

  lemma {:induction false} FillIsNumeral(n: nat, tail: string)
    requires n > 0
    ensures Fill(n, tail) == Numeral(n) + tail
    decreases n
  {
    if n >= 10 {
      FillIsNumeral(n / 10, [Digit(n % 10)] + tail);
      assert Numeral(n / 10) + ([Digit(n % 10)] + tail) == Numeral(n / 10) + [Digit(n % 10)] + tail;
    }
  }

  lemma FillEmits(sig: nat, n: nat, tail: string)
    requires Fill(n, tail) == Numeral(sig) && |tail| <= SIZE - 1 && (n == 0 || |tail| == SIZE - 1)
    ensures Emitted(sig) == tail + "\n"
  {
    if n > 0 {
      FillIsNumeral(n, tail);
      assert Numeral(sig)[|Numeral(sig)| - (SIZE - 1)..] == tail;
    }
  }

  /**
    The buffer is written from pos + 1 on: a tail of the digits of sig, of which
    those of n are missing, and the newline.
   */
  ghost predicate Written(buffer: array<char>, pos: int, sig: nat, n: nat)
    reads buffer
  {
    && buffer.Length == SIZE && -1 <= pos <= SIZE - 3
    && buffer[SIZE - 1] == '\n'
    && Fill(n, buffer[pos + 1..SIZE - 1]) == Numeral(sig)
  }

  /** sigBuf[pos--] = '0' + (n % 10); n /= 10. */
  method PutDigit(buffer: array<char>, pos: int, ghost sig: nat, n: nat) returns (pos': int, n': nat)
    requires Written(buffer, pos, sig, n) && pos >= 0 && n > 0
    modifies buffer
    ensures pos' == pos - 1 && n' == n / 10 && Written(buffer, pos', sig, n')
  {
    ghost var tail := buffer[pos + 1..SIZE - 1];
    buffer[pos] := Digit(n % 10);
    pos', n' := pos - 1, n / 10;
    assert buffer[pos..SIZE - 1] == [Digit(n % 10)] + tail;
  }

  lemma WrittenEmits(buffer: array<char>, pos: int, sig: nat, n: nat)
    requires Written(buffer, pos, sig, n) && (n == 0 || pos < 0)
    ensures buffer[pos + 1..] == Emitted(sig)
  {
    FillEmits(sig, n, buffer[pos + 1..SIZE - 1]);
    assert buffer[pos + 1..] == buffer[pos + 1..SIZE - 1] + "\n";
  }

  /** The first two writes; the body of the do-while runs once before its condition is looked at. */
  method PutFirst(buffer: array<char>, sig: nat) returns (pos: int, n: nat)
    requires buffer.Length == SIZE
    modifies buffer
    ensures pos == SIZE - 3 && n == sig / 10 && Written(buffer, pos, sig, n)
  {
    pos := SIZE - 1;
    buffer[pos] := '\n';
    pos := pos - 1;
    buffer[pos] := Digit(sig % 10);
    pos, n := pos - 1, sig / 10;
    assert buffer[pos + 1..SIZE - 1] == [Digit(sig % 10)];
    if sig >= 10 {
      FillIsNumeral(n, [Digit(sig % 10)]);
    }
  }

  /** The rest of the do-while. */
  method PutRest(buffer: array<char>, first: int, ghost sig: nat, left: nat) returns (pos: int, n: nat)
    requires Written(buffer, first, sig, left)
    modifies buffer
    ensures Written(buffer, pos, sig, n) && (n == 0 || pos < 0)
  {
    pos, n := first, left;
    while n > 0 && pos >= 0
      invariant Written(buffer, pos, sig, n)
      decreases n
    {
      pos, n := PutDigit(buffer, pos, sig, n);
    }
  }

  /** The buffer and the first byte written out; everything from there on is written. */
  method FormatSignal(sig: nat) returns (buffer: array<char>, start: nat)
    ensures fresh(buffer) && buffer.Length == 8 && start < 8
    ensures buffer[start..] == Emitted(sig)
  {
    buffer := new char[SIZE];
    var pos, n := PutFirst(buffer, sig);
    pos, n := PutRest(buffer, pos, sig, n);
    start := pos + 1;
    WrittenEmits(buffer, pos, sig, n);
  }

  lemma {:induction false} ValueOfSuffix(s: string, k: nat)
    requires AllDigits(s) && k <= |s|
    ensures AllDigits(s[|s| - k..])
    ensures Value(s[|s| - k..]) == Value(s) % Pow10(k)
  {
    if k == 0 {
      assert s[|s|..] == "";
    } else {
      var init := s[..|s| - 1];
      ValueOfSuffix(init, k - 1);
      var suffix := s[|s| - k..];
      assert suffix[..k - 1] == init[|init| - (k - 1)..];
      TimesTenModulo(Value(init), DigitValue(s[|s| - 1]), Pow10(k - 1));
    }
  }

  lemma TimesTenModulo(a: nat, d: nat, m: nat)
    requires m > 0 && d < 10
    ensures (a * 10 + d) % (10 * m) == a % m * 10 + d
  {
    assert a * 10 + d == a / m * (10 * m) + (a % m * 10 + d);
    RemainderIsUnique(a * 10 + d, 10 * m, a / m, a % m * 10 + d);
  }

  lemma RemainderIsUnique(x: nat, m: nat, q: nat, r: nat)
    requires m > 0 && x == q * m + r && r < m
    ensures x % m == r
  {
    var q' := x / m;
    if q > q' {
      Monotone(q' + 1, q, m);
    } else if q < q' {
      Monotone(q + 1, q', m);
    }
  }

  lemma Monotone(a: nat, b: nat, m: nat)
    requires a <= b
    ensures a * m <= b * m
  {
  }

  /** The last k digits of a numeral are all of it exactly when the number is below 10^k. */
  lemma LastDigits(n: nat, k: nat)
    requires 0 < k <= |Numeral(n)|
    ensures var digits := Numeral(n)[|Numeral(n)| - k..];
            && AllDigits(digits)
            && Value(digits) == n % Pow10(k)
            && (n < Pow10(k) <==> digits == Numeral(n))
  {
    var s := Numeral(n);
    ValueOfNumeral(n);
    NumeralLength(n, k);
    ValueOfSuffix(s, k);
    if |s| == k {
      assert s[0..] == s;
    } else {
      assert |s[|s| - k..]| != |s|;
    }
  }

  /** Reading the emitted digits back gives the signal number modulo 10^7, and all of it below 10^7. */
  lemma EmittedDecodes(n: nat)
    ensures var digits := Emitted(n)[..|Emitted(n)| - 1];
            && AllDigits(digits)
            && Value(digits) == n % Pow10(7)
            && (n < Pow10(7) <==> digits == Numeral(n))
    ensures Emitted(n)[|Emitted(n)| - 1] == '\n'
  {
    var s := Numeral(n);
    NumeralLength(n, SIZE - 1);
    var digits := Emitted(n)[..|Emitted(n)| - 1];
    if |s| < SIZE - 1 {
      assert digits == s;
      ValueOfNumeral(n);
      SmallModulo(n, Pow10(SIZE - 1));
    } else {
      assert digits == s[|s| - (SIZE - 1)..];
      LastDigits(n, SIZE - 1);
    }
  }

  lemma SmallModulo(n: nat, m: nat)
    requires n < m
    ensures n % m == n
  {
  }
}
