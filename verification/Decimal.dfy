/** Decimal text and 64-bit integers, as Go's strconv.ParseInt(s, 10, 64), fmt's "%d" and fmt.Sscanf("%d") treat
    them. */
module Decimal {
  const MAX_INT64: int := 0x7FFF_FFFF_FFFF_FFFF
  const MIN_INT64: int := -0x8000_0000_0000_0000
  const MAX_UINT64: int := 0xFFFF_FFFF_FFFF_FFFF

  type Int64 = n: int | MIN_INT64 <= n <= MAX_INT64

  // ---------- printing ("%d") ----------

  predicate IsDigit(c: char) { '0' <= c <= '9' }

  function DigitChar(d: nat): char
    requires d < 10
  { '0' + d as char }

  function DigitValue(c: char): nat
    requires IsDigit(c)
  { c as int - '0' as int }

  function PrintNat(n: nat): string {
    if n < 10 then [DigitChar(n)] else PrintNat(n / 10) + [DigitChar(n % 10)]
  }

  function Print(n: int): string {
    if n < 0 then "-" + PrintNat(-n) else PrintNat(n)
  }

  // ---------- strconv.ParseInt(s, 10, 64) ----------

  datatype Unsigned = Value(n: nat) | Syntax | OutOfRange

  /** The digit loop of ParseUint: reads left to right and stops at the first overflow or the first non-digit. */
  function ParseUint(s: string, acc: nat): Unsigned {
    if s == [] then Value(acc)
    else if !IsDigit(s[0]) then Syntax
    else
      var n := 10 * acc + DigitValue(s[0]);
      if n > MAX_UINT64 then OutOfRange else ParseUint(s[1..], n)
  }

  /** The pair Go returns: a value (0 on a syntax error, the nearest bound on overflow) and whether the error is nil. */
  datatype Parsed = Parsed(value: Int64, ok: bool)

  predicate IsSign(c: char) { c == '+' || c == '-' }

  function Unsign(s: string): string {
    if s != [] && IsSign(s[0]) then s[1..] else s
  }

  predicate Negative(s: string) { s != [] && s[0] == '-' }

  function Clamp(negative: bool): Int64 {
    if negative then MIN_INT64 else MAX_INT64
  }

  function Signed(negative: bool, n: int): int {
    if negative then -n else n
  }

  function Magnitude(n: int): nat {
    if n < 0 then -n else n
  }

  function ParseInt(s: string): Parsed {
    var body, negative := Unsign(s), Negative(s);
    if body == [] then Parsed(0, false) else
      match ParseUint(body, 0)
      case Syntax => Parsed(0, false)
      case OutOfRange => Parsed(Clamp(negative), false)
      case Value(n) =>
        if n > (if negative then -MIN_INT64 else MAX_INT64) then Parsed(Clamp(negative), false)
        else Parsed(Signed(negative, n), true)
  }

  // ---------- fmt.Sscanf(s, "%d", &n), n initially 0 ----------

  /** Blank characters of package fmt other than the newline, which ends a scan. */
  predicate IsBlank(c: char) {
    var k := c as int;
    || (0x09 <= k <= 0x0d && k != 0x0a)
    || 0x2000 <= k <= 0x200a
    || k in {0x20, 0x85, 0xa0, 0x1680, 0x2028, 0x2029, 0x202f, 0x205f, 0x3000}
  }

  /** Skips blanks; a newline fails the scan, shown here as empty remaining text. */
  function SkipBlanks(s: string): string {
    if s == [] then []
    else if s[0] == '\n' then []
    else if IsBlank(s[0]) then SkipBlanks(s[1..])
    else s
  }

  function LeadingDigits(s: string): string {
    if s != [] && IsDigit(s[0]) then [s[0]] + LeadingDigits(s[1..]) else []
  }

  /** The integer left in the scanned variable: unread text is ignored, any error leaves the initial 0. */
  function ScanInt(s: string): Int64 {
    var t := SkipBlanks(s);
    var sign := if t != [] && IsSign(t[0]) then [t[0]] else [];
    var p := ParseInt(sign + LeadingDigits(Unsign(t)));
    if p.ok then p.value else 0
  }

  // ---------- printing and parsing are inverse ----------

  predicate AllDigits(s: string) { forall i :: 0 <= i < |s| ==> IsDigit(s[i]) }

  /** Decimal text of a positive number as Kubernetes writes revisions: digits only, no leading zero. */
  predicate Canonical(s: string) {
    s != [] && AllDigits(s) && s[0] != '0' && ParseInt(s).ok
  }

  lemma {:induction false} PrintNatShape(n: nat)
    ensures PrintNat(n) != [] && AllDigits(PrintNat(n))
    ensures n > 0 ==> PrintNat(n)[0] != '0'
  {
    if n >= 10 {
      PrintNatShape(n / 10);
    }
  }

  /** One more digit on the right is one more step of the digit loop. */
  lemma {:induction false} ParseUintSnoc(s: string, c: char, acc: nat)
    requires IsDigit(c)
    ensures ParseUint(s + [c], acc) ==
            match ParseUint(s, acc)
            case Value(n) =>
              if 10 * n + DigitValue(c) > MAX_UINT64 then OutOfRange else Value(10 * n + DigitValue(c))
            case other => other
  {
    if s == [] {
      assert s + [c] == [c];
      assert [c][1..] == [];
    } else {
      assert (s + [c])[0] == s[0] && (s + [c])[1..] == s[1..] + [c];
      if IsDigit(s[0]) {
        var n := 10 * acc + DigitValue(s[0]);
        if n <= MAX_UINT64 {
          ParseUintSnoc(s[1..], c, n);
        }
      }
    }
  }

  lemma {:induction false} ParsePrintNat(n: nat)
    requires n <= MAX_UINT64
    ensures ParseUint(PrintNat(n), 0) == Value(n)
  {
    if n < 10 {
      assert PrintNat(n)[1..] == [];
    } else {
      ParsePrintNat(n / 10);
      ParseUintSnoc(PrintNat(n / 10), DigitChar(n % 10), 0);
    }
  }

  lemma ParsePrint(n: Int64)
    ensures ParseInt(Print(n)) == Parsed(n, true)
  {
    var m := Magnitude(n);
    PrintNatShape(m);
    ParsePrintNat(m);
    assert Print(n)[0] == '-' || IsDigit(Print(n)[0]);
    assert Unsign(Print(n)) == PrintNat(m);
  }

  lemma {:induction false} DigitsPrintBack(s: string)
    requires s != [] && AllDigits(s) && s[0] != '0' && ParseUint(s, 0).Value?
    ensures ParseUint(s, 0).n > 0 && PrintNat(ParseUint(s, 0).n) == s
  {
    var k := |s| - 1;
    var front, c := s[..k], s[k];
    assert s == front + [c];
    ParseUintSnoc(front, c, 0);
    if k > 0 {
      DigitsPrintBack(front);
    } else {
      assert front == [];
    }
  }

  /** The canonical texts are exactly the printed positive 64-bit numbers. */
  lemma CanonicalIffPrinted(s: string)
    ensures Canonical(s) <==> exists n: Int64 :: n > 0 && Print(n) == s
  {
    if Canonical(s) {
      assert Unsign(s) == s && !Negative(s);
      DigitsPrintBack(s);
      var n: Int64 := ParseInt(s).value;
      assert n > 0 && Print(n) == s;
    }
    if exists n: Int64 :: n > 0 && Print(n) == s {
      var n: Int64 :| n > 0 && Print(n) == s;
      PrintNatShape(n);
      ParsePrint(n);
    }
  }

  lemma {:induction false} LeadingDigitsAll(s: string)
    requires AllDigits(s)
    ensures LeadingDigits(s) == s
  {
    if s != [] {
      LeadingDigitsAll(s[1..]);
    }
  }

  lemma ScanPrint(n: Int64)
    ensures ScanInt(Print(n)) == n
  {
    var m := Magnitude(n);
    var s := Print(n);
    PrintNatShape(m);
    assert s[0] == '-' || IsDigit(s[0]);
    assert SkipBlanks(s) == s;
    assert Unsign(s) == PrintNat(m);
    LeadingDigitsAll(PrintNat(m));
    ParsePrint(n);
    assert (if IsSign(s[0]) then [s[0]] else []) + PrintNat(m) == s;
  }

  // ---------- what any text means ----------

  /** The number a digit text denotes, place by place. */
  function Number(s: string): nat
    requires AllDigits(s)
  {
    if s == [] then 0
    else
      assert IsDigit(s[|s| - 1]);
      10 * Number(s[..|s| - 1]) + (s[|s| - 1] as int - '0' as int)
  }

  /** The text begins with no digit. */
  predicate NoDigitFirst(s: string) { s == [] || !('0' <= s[0] <= '9') }

  lemma {:induction false} ParseUintDigits(s: string)
    requires AllDigits(s)
    ensures ParseUint(s, 0) == if Number(s) <= MAX_UINT64 then Value(Number(s)) else OutOfRange
  {
    if s != [] {
      var front, c := s[..|s| - 1], s[|s| - 1];
      ParseUintDigits(front);
      assert s == front + [c];
      ParseUintSnoc(front, c, 0);
    }
  }

  /** The digit loop stops behind the digits. */
  lemma {:induction false} ParseUintStops(digits: string, rest: string, acc: nat)
    requires AllDigits(digits) && rest != [] && NoDigitFirst(rest)
    ensures ParseUint(digits + rest, acc) == match ParseUint(digits, acc) case Value(_) => Syntax case other => other
  {
    if digits == [] {
      assert digits + rest == rest;
    } else {
      assert (digits + rest)[0] == digits[0] && (digits + rest)[1..] == digits[1..] + rest;
      var n := 10 * acc + DigitValue(digits[0]);
      if n <= MAX_UINT64 {
        ParseUintStops(digits[1..], rest, n);
      }
    }
  }

  /** The text is an optional sign, the digits that follow it, and the rest. */
  predicate Reads(s: string, sign: string, digits: string, rest: string) {
    && s == sign + digits + rest && sign in {"", "+", "-"} && AllDigits(digits) && NoDigitFirst(rest)
    && (sign == "" && digits == "" && rest != "" ==> rest[0] != '+' && rest[0] != '-')
  }

  lemma {:induction false} SplitDigits(s: string) returns (digits: string, rest: string)
    ensures s == digits + rest && AllDigits(digits) && NoDigitFirst(rest)
  {
    if NoDigitFirst(s) {
      digits, rest := "", s;
    } else {
      digits, rest := SplitDigits(s[1..]);
      digits := [s[0]] + digits;
    }
  }

  /** Every text reads in this way. */
  lemma EveryTextReads(s: string) returns (sign: string, digits: string, rest: string)
    ensures Reads(s, sign, digits, rest)
  {
    sign := if s != "" && (s[0] == '+' || s[0] == '-') then [s[0]] else "";
    digits, rest := SplitDigits(s[|sign|..]);
    assert sign + s[|sign|..] == s;
  }

  function SignedNumber(sign: string, digits: string): int
    requires AllDigits(digits)
  {
    var n: int := Number(digits); if sign == "-" then -n else n
  }

  /** strconv.ParseInt on every text: a signed digit text in range is read; one out of range gives the nearer bound and
      an error; anything else gives 0 and an error, unless its digits alone already exceed 64 unsigned bits. */
  lemma ParseIntExactly(s: string, sign: string, digits: string, rest: string)
    requires Reads(s, sign, digits, rest)
    ensures var n := SignedNumber(sign, digits);
            ParseInt(s)
            == if digits == "" || (rest != "" && Number(digits) <= 0xFFFF_FFFF_FFFF_FFFF) then Parsed(0, false)
               else if rest == "" && -0x8000_0000_0000_0000 <= n <= 0x7FFF_FFFF_FFFF_FFFF then Parsed(n, true)
               else Parsed(if sign == "-" then -0x8000_0000_0000_0000 else 0x7FFF_FFFF_FFFF_FFFF, false)
  {
    BodyReads(s, sign, digits, rest);
    ParseUintDigits(digits);
    if rest == "" {
      assert digits + rest == digits;
    } else {
      ParseUintStops(digits, rest, 0);
    }
    if digits == "" {
      assert digits + rest == rest;
    }
  }

  lemma BodyReads(s: string, sign: string, digits: string, rest: string)
    requires Reads(s, sign, digits, rest)
    ensures Unsign(s) == digits + rest && (Negative(s) <==> sign == "-")
  {
    if sign == "" {
      assert s == digits + rest;
      assert digits != "" ==> s[0] == digits[0] && IsDigit(digits[0]);
      assert digits == "" ==> s == rest;
    } else {
      assert s[0] == sign[0] && s[1..] == digits + rest;
    }
  }

  lemma {:induction false} BlanksAreSkipped(blanks: string, t: string)
    requires forall c :: c in blanks ==> IsBlank(c)
    ensures SkipBlanks(blanks + t) == SkipBlanks(t)
  {
    if blanks == "" {
      assert blanks + t == t;
    } else {
      assert (blanks + t)[0] == blanks[0] && (blanks + t)[1..] == blanks[1..] + t;
      BlanksAreSkipped(blanks[1..], t);
    }
  }

  lemma {:induction false} LeadingDigitsOf(digits: string, rest: string)
    requires AllDigits(digits) && NoDigitFirst(rest)
    ensures LeadingDigits(digits + rest) == digits
  {
    if digits == "" {
      assert digits + rest == rest;
    } else {
      assert (digits + rest)[0] == digits[0] && (digits + rest)[1..] == digits[1..] + rest;
      LeadingDigitsOf(digits[1..], rest);
    }
  }

  /** fmt.Sscanf on every text: the number behind the blanks if there is one and it is in range, else 0; what follows
      the digits does not matter. */
  lemma ScanExactly(s: string, blanks: string, t: string, sign: string, digits: string, rest: string)
    requires s == blanks + t && (forall c :: c in blanks ==> IsBlank(c)) && (t == "" || !IsBlank(t[0]))
    requires Reads(t, sign, digits, rest)
    ensures var n := SignedNumber(sign, digits);
            ScanInt(s) == if digits != "" && -0x8000_0000_0000_0000 <= n <= 0x7FFF_FFFF_FFFF_FFFF then n else 0
  {
    BlanksAreSkipped(blanks, t);
    if t != "" && t[0] != '\n' {
      BodyReads(t, sign, digits, rest);
      LeadingDigitsOf(digits, rest);
      ScanSign(t, sign, digits, rest);
      ParseIntExactly(sign + digits, sign, digits, "");
    } else {
      NothingScanned(t, sign, digits, rest);
    }
  }

  lemma ScanSign(t: string, sign: string, digits: string, rest: string)
    requires Reads(t, sign, digits, rest)
    ensures (if t != [] && IsSign(t[0]) then [t[0]] else []) == sign
    ensures Reads(sign + digits, sign, digits, "")
  {
    if sign == "" {
      assert t == digits + rest;
    }
    assert sign + digits + "" == sign + digits;
  }

  lemma FirstRead(t: string, sign: string, digits: string, rest: string)
    requires Reads(t, sign, digits, rest)
    ensures digits != "" ==> t != "" && (IsSign(t[0]) || IsDigit(t[0]))
  {
    if sign == "" && digits != "" {
      assert t[0] == digits[0];
    } else if digits != "" {
      assert t[0] == sign[0];
    }
  }

  lemma NothingScanned(t: string, sign: string, digits: string, rest: string)
    requires Reads(t, sign, digits, rest) && (t == "" || t[0] == '\n')
    ensures digits == "" && ScanInt(t) == 0
  {
    FirstRead(t, sign, digits, rest);
    assert SkipBlanks(t) == "";
    assert LeadingDigits(Unsign("")) == "" && ParseInt("") == Parsed(0, false);
  }
}
