/** The behaviour of the C library routines the program relies on, as far as
    the program's observable behaviour depends on it: `%d` formatting,
    `snprintf` truncation, `atoi`, `strcmp` on NUL-terminated buffers and
    `fgets` on a character stream. */
module LibC {
  import opened CTypes

  predicate IsDigit(c: char) { '0' <= c <= '9' }

  /** `isspace` in the C locale: space, and the control characters \t \n \v \f \r. */
  predicate IsSpace(c: char) { c == ' ' || 9 <= c as int <= 13 }

  predicate AllDigits(s: string) { forall i :: 0 <= i < |s| ==> IsDigit(s[i]) }

  function DigitValue(c: char): (d: nat)
    requires IsDigit(c)
    ensures d < 10
  {
    c as int - '0' as int
  }

  function DigitChar(d: nat): (c: char)
    requires d < 10
    ensures IsDigit(c) && DigitValue(c) == d
  {
    ('0' as int + d) as char
  }

  function Pow10(k: nat): (p: nat)
    ensures p >= 1
  {
    if k == 0 then 1 else 10 * Pow10(k - 1)
  }

  /** The text `%d` produces for a non-negative value: decimal digits, no sign
      and no leading zero. */
  function Decimal(n: nat): (s: string)
    ensures 0 < |s| && AllDigits(s)
    ensures s[0] == '0' ==> n == 0 && |s| == 1
    decreases n
  {
    if n < 10 then [DigitChar(n)] else Decimal(n / 10) + [DigitChar(n % 10)]
  }

  lemma {:induction false} DecimalLength(n: nat, k: nat)
    requires 1 <= k && n < Pow10(k)
    ensures |Decimal(n)| <= k
    decreases k
  {
    if n >= 10 {
      assert k >= 2;
      DecimalLength(n / 10, k - 1);
    }
  }

  /** The value of a string of decimal digits, read from the left. */
  function DigitsValue(s: string): nat
    requires AllDigits(s)
    decreases |s|
  {
    if s == [] then 0 else 10 * DigitsValue(s[..|s| - 1]) + DigitValue(s[|s| - 1])
  }

  /** The last digit of a non-empty digit string is its units. */
  lemma DigitsValueStep(s: string)
    requires AllDigits(s) && s != []
    ensures AllDigits(s[..|s| - 1])
    ensures DigitsValue(s) == 10 * DigitsValue(s[..|s| - 1]) + DigitValue(s[|s| - 1])
  {
  }

  /** The longest prefix of `s` made of decimal digits. */
  function LeadingDigits(s: string): (d: string)
    ensures d <= s && AllDigits(d)
    ensures |d| < |s| ==> !IsDigit(s[|d|])
  {
    if s != [] && IsDigit(s[0]) then [s[0]] + LeadingDigits(s[1..]) else []
  }

  /** What is left of `s` once its leading white space is skipped. */
  function SkipSpace(s: string): (r: string)
    ensures |r| <= |s| && r == s[|s| - |r|..]
    ensures forall i :: 0 <= i < |s| - |r| ==> IsSpace(s[i])
    ensures r != [] ==> !IsSpace(r[0])
  {
    if s != [] && IsSpace(s[0]) then SkipSpace(s[1..]) else s
  }

  /** `atoi`: optional leading white space, an optional sign, then the longest
      run of decimal digits; 0 when there are none. */
  function Atoi(s: string): int
  {
    var t := SkipSpace(s);
    if |t| > 0 && t[0] == '-' then -(DigitsValue(LeadingDigits(t[1..])) as int)
    else if |t| > 0 && t[0] == '+' then DigitsValue(LeadingDigits(t[1..]))
    else DigitsValue(LeadingDigits(t))
  }

  lemma {:induction false} LeadingDigitsOfDigits(s: string)
    requires AllDigits(s)
    ensures LeadingDigits(s) == s
  {
    if s != [] {
      LeadingDigitsOfDigits(s[1..]);
    }
  }

  /** `atoi` of a string of digits is its decimal value: there is no white
      space to skip, no sign, and every character is taken. */
  lemma AtoiDigits(s: string)
    requires AllDigits(s)
    ensures Atoi(s) == DigitsValue(s)
  {
    if s != [] {
      assert !IsSpace(s[0]);
    }
    LeadingDigitsOfDigits(s);
  }

  lemma {:induction false} DecimalValue(n: nat)
    ensures DigitsValue(Decimal(n)) == n
    decreases n
  {
    var s := Decimal(n);
    if n >= 10 {
      DecimalValue(n / 10);
      assert s[..|s| - 1] == Decimal(n / 10);
    }
  }

  /** `atoi` reads back what `%d` prints. */
  lemma AtoiDecimal(n: nat)
    ensures Atoi(Decimal(n)) == n
  {
    AtoiDigits(Decimal(n));
    DecimalValue(n);
  }

  /** What `snprintf(buf, size, ...)` stores in `buf` when the formatted text is
      `text`: at most `size - 1` characters (the last byte holds the NUL). */
  function Snprintf(size: nat, text: string): (s: string)
    requires size > 0
    ensures s <= text && |s| <= size - 1
    ensures |text| < size ==> s == text
  {
    if |text| < size then text else text[..size - 1]
  }

  /** The C string a character buffer holds: its characters up to the first
      NUL. `strcmp` compares buffers by these. */
  function CString(buf: seq<char>): (s: seq<char>)
    ensures s <= buf && '\0' !in s
    ensures |s| < |buf| ==> buf[|s|] == '\0'
  {
    if buf == [] || buf[0] == '\0' then [] else [buf[0]] + CString(buf[1..])
  }

  /** The number of characters `fgets` takes from a stream that still holds
      `s` when it may store at most `limit` of them: it stops after a newline,
      at the limit, or at the end of the input. */
  function LineLength(s: seq<char>, limit: nat): (n: nat)
    ensures n <= |s| && n <= limit
    ensures forall i :: 0 <= i < n - 1 ==> s[i] != '\n'
    ensures n < |s| && n < limit ==> 0 < n && s[n - 1] == '\n'
    ensures 0 < |s| && 0 < limit ==> 0 < n
  {
    if s == [] || limit == 0 then 0
    else if s[0] == '\n' then 1
    else 1 + LineLength(s[1..], limit - 1)
  }

  /** `fgets(buf, size, stream)` on a stream holding `stream`: `None` is the
      NULL return (no character left), otherwise the chunk stored in `buf`. */
  function Fgets(stream: seq<char>, size: nat): (r: Option<seq<char>>)
    requires size >= 2
    ensures r.None? <==> stream == []
    ensures r.Some? ==> 0 < |r.value| < size && r.value <= stream
    ensures r.Some? ==> forall i :: 0 <= i < |r.value| - 1 ==> r.value[i] != '\n'
    ensures r.Some? ==>
              r.value[|r.value| - 1] == '\n' || |r.value| == size - 1 || r.value == stream
  {
    if stream == [] then None else Some(stream[..LineLength(stream, size - 1)])
  }

  /** A line that ends in its only newline and fits in the limit is taken
      whole, whatever follows it. */
  lemma {:induction false} LineLengthOfLine(line: seq<char>, rest: seq<char>, limit: nat)
    requires 0 < |line| <= limit
    requires line[|line| - 1] == '\n'
    requires forall i :: 0 <= i < |line| - 1 ==> line[i] != '\n'
    ensures LineLength(line + rest, limit) == |line|
    decreases |line|
  {
    if |line| > 1 {
      assert (line + rest)[1..] == line[1..] + rest;
      LineLengthOfLine(line[1..], rest, limit - 1);
    }
  }

  /** Text with no newline that fits in the limit is taken whole. */
  lemma {:induction false} LineLengthOfText(s: seq<char>, limit: nat)
    requires |s| <= limit && '\n' !in s
    ensures LineLength(s, limit) == |s|
    decreases |s|
  {
    if s != [] {
      assert s[0] in s;
      assert forall c :: c in s[1..] ==> c in s;
      LineLengthOfText(s[1..], limit - 1);
    }
  }

  /** `fgets` on a stream that holds one line, newline included, whatever follows it. */
  lemma FgetsLine(line: seq<char>, rest: seq<char>, size: nat)
    requires 2 <= size && 0 < |line| < size
    requires line[|line| - 1] == '\n'
    requires forall i :: 0 <= i < |line| - 1 ==> line[i] != '\n'
    ensures Fgets(line + rest, size) == Some(line)
  {
    LineLengthOfLine(line, rest, size - 1);
    assert (line + rest)[..|line|] == line;
  }

  /** `fgets` on a stream that holds a short text without newline. */
  lemma FgetsText(s: seq<char>, size: nat)
    requires 2 <= size && 0 < |s| < size && '\n' !in s
    ensures Fgets(s, size) == Some(s)
  {
    LineLengthOfText(s, size - 1);
    assert s[..|s|] == s;
  }

  /** `strcmp` sees all of a text with no NUL character. */
  lemma {:induction false} CStringOfText(s: seq<char>)
    requires '\0' !in s
    ensures CString(s) == s
    decreases |s|
  {
    if s != [] {
      assert s[0] in s;
      assert forall c :: c in s[1..] ==> c in s;
      CStringOfText(s[1..]);
    }
  }
}
