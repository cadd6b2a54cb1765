/** The few text operations the scheduler and the trigger generators rely on:
    splitting and joining on a separator, trimming, decimal numbers, and
    two-digit clock fields. */
module Text {
  import opened Options

  /** The pieces of `s` between occurrences of `sep`; never empty. */
  function Split(s: string, sep: char): (parts: seq<string>)
    ensures |parts| >= 1
  {
    if s == "" then [""]
    else
      var rest := Split(s[1..], sep);
      if s[0] == sep then [""] + rest else [[s[0]] + rest[0]] + rest[1..]
  }

  function Join(parts: seq<string>, sep: char): string {
    if |parts| == 0 then ""
    else if |parts| == 1 then parts[0]
    else parts[0] + [sep] + Join(parts[1..], sep)
  }

  lemma {:induction false} SplitPiece(p: string, sep: char)
    requires sep !in p
    ensures Split(p, sep) == [p]
  {
    if p != "" {
      SplitPiece(p[1..], sep);
      assert [p[0]] + p[1..] == p;
    }
  }

  lemma {:induction false} SplitFirst(p: string, rest: string, sep: char)
    requires sep !in p
    ensures Split(p + [sep] + rest, sep) == [p] + Split(rest, sep)
  {
    var s := p + [sep] + rest;
    if p == "" {
      assert s[1..] == rest;
    } else {
      assert s[1..] == p[1..] + [sep] + rest;
      SplitFirst(p[1..], rest, sep);
      assert [s[0]] + p[1..] == p;
    }
  }

  /** Splitting undoes joining when no piece holds the separator. */
  lemma {:induction false} SplitJoin(parts: seq<string>, sep: char)
    requires |parts| >= 1
    requires forall p :: p in parts ==> sep !in p
    ensures Split(Join(parts, sep), sep) == parts
  {
    if |parts| == 1 {
      SplitPiece(parts[0], sep);
    } else {
      SplitFirst(parts[0], Join(parts[1..], sep), sep);
      SplitJoin(parts[1..], sep);
    }
  }

  /** Characters that Unicode classes as white space, the set trimmed away. */
  predicate IsSpace(c: char) {
    || c in {'\t', '\n', '\U{000B}', '\U{000C}', '\r', ' ', '\U{0085}', '\U{00A0}', '\U{1680}'}
    || '\U{2000}' <= c <= '\U{200A}'
    || c in {'\U{2028}', '\U{2029}', '\U{202F}', '\U{205F}', '\U{3000}'}
  }

  function TrimLeft(s: string): string {
    if s != "" && IsSpace(s[0]) then TrimLeft(s[1..]) else s
  }

  function TrimRight(s: string): string {
    if s != "" && IsSpace(s[|s| - 1]) then TrimRight(s[..|s| - 1]) else s
  }

  function Trim(s: string): string {
    TrimRight(TrimLeft(s))
  }

  predicate AllSpace(s: string) {
    forall c :: c in s ==> IsSpace(c)
  }

  /** Trimming takes away all white space at both ends and nothing else. */
  lemma TrimIs(s: string) returns (left: string, right: string)
    ensures s == left + Trim(s) + right && AllSpace(left) && AllSpace(right)
    ensures Trim(s) != "" ==> !IsSpace(Trim(s)[0]) && !IsSpace(Trim(s)[|Trim(s)| - 1])
    ensures IsSpace(' ') && IsSpace('\t') && IsSpace('\n')
    ensures !IsSpace(',') && forall c :: 'A' <= c <= 'Z' ==> !IsSpace(c)
  {
    hide IsSpace;
    left := TrimLeftIs(s);
    right := TrimRightIs(TrimLeft(s));
    SpacesAre();
  }

  lemma SpacesAre()
    ensures IsSpace(' ') && IsSpace('\t') && IsSpace('\n')
    ensures !IsSpace(',') && forall c :: 'A' <= c <= 'Z' ==> !IsSpace(c)
  {
  }

  lemma {:induction false} TrimLeftIs(s: string) returns (left: string)
    ensures s == left + TrimLeft(s) && AllSpace(left) && (TrimLeft(s) != "" ==> !IsSpace(TrimLeft(s)[0]))
  {
    hide IsSpace;
    left := "";
    if s != "" && IsSpace(s[0]) {
      var rest := TrimLeftIs(s[1..]);
      left := [s[0]] + rest;
    }
  }

  lemma {:induction false} TrimRightIs(s: string) returns (right: string)
    ensures s == TrimRight(s) + right && AllSpace(right) && TrimRight(s) <= s
    ensures TrimRight(s) != "" ==> !IsSpace(TrimRight(s)[|TrimRight(s)| - 1])
  {
    hide IsSpace;
    right := "";
    if s != "" && IsSpace(s[|s| - 1]) {
      var rest := TrimRightIs(s[..|s| - 1]);
      right := rest + [s[|s| - 1]];
    }
  }

  lemma TrimNothing(s: string)
    requires s != "" ==> !IsSpace(s[0]) && !IsSpace(s[|s| - 1])
    ensures Trim(s) == s
  {
  }

  /** The decimal digit for `d`. */
  function Digit(d: nat): char
    requires d < 10
  {
    "0123456789"[d]
  }

  predicate IsDigit(c: char) {
    '0' <= c <= '9'
  }

  function DigitValue(c: char): Option<nat> {
    if IsDigit(c) then Some((c as int) - ('0' as int)) else None
  }

  lemma DigitRoundTrip(d: nat)
    requires d < 10
    ensures DigitValue(Digit(d)) == Some(d)
    ensures '0' <= Digit(d) <= '9'
  {
    assert Digit(d) == ('0' as int + d) as char by {
      if d == 0 {} else if d == 1 {} else if d == 2 {} else if d == 3 {} else if d == 4 {}
      else if d == 5 {} else if d == 6 {} else if d == 7 {} else if d == 8 {} else {}
    }
  }

  /** `n` written in base ten without leading zeros. */
  function Decimal(n: nat): string {
    if n < 10 then [Digit(n)] else Decimal(n / 10) + [Digit(n % 10)]
  }

  function ParseDecimal(s: string): Option<nat> {
    if s == "" then None
    else
      match DigitValue(s[|s| - 1])
      case None => None
      case Some(d) =>
        if |s| == 1 then Some(d)
        else
          match ParseDecimal(s[..|s| - 1])
          case None => None
          case Some(high) => Some(10 * high + d)
  }

  lemma {:induction false} DecimalRoundTrip(n: nat)
    ensures Decimal(n) != "" && ParseDecimal(Decimal(n)) == Some(n)
    ensures forall c :: c in Decimal(n) ==> '0' <= c <= '9'
  {
    DigitRoundTrip(n % 10);
    hide Digit, DigitValue;
    if n >= 10 {
      DecimalRoundTrip(n / 10);
      var s := Decimal(n);
      assert s[..|s| - 1] == Decimal(n / 10);
    }
  }

  /** `n` as two digits with a leading zero, as clock fields are printed. */
  function TwoDigits(n: nat): string
    requires n < 100
  {
    [Digit(n / 10), Digit(n % 10)]
  }

  /** The number in the first one or two digits, both if `fixed`, and what follows it. */
  function TakeNumber(s: string, fixed: bool): Option<(nat, string)> {
    if s == "" || !IsDigit(s[0]) then None
    else
      var first := DigitValue(s[0]).value;
      if |s| > 1 && IsDigit(s[1]) then Some((10 * first + DigitValue(s[1]).value, s[2..]))
      else if fixed then None
      else Some((first, s[1..]))
  }

  lemma DigitOfValue(c: char)
    requires IsDigit(c)
    ensures DigitValue(c).value < 10 && Digit(DigitValue(c).value) == c
  {
    DigitRoundTrip(DigitValue(c).value);
  }

  /** `n` as one digit, where allowed, or as two. */
  predicate IsNumberText(text: string, n: nat, fixed: bool) {
    n < 100 && (text == TwoDigits(n) || (!fixed && n < 10 && text == [Digit(n)]))
  }

  lemma TakeNumberSound(s: string, fixed: bool)
    requires TakeNumber(s, fixed).Some?
    ensures var (n, rest) := TakeNumber(s, fixed).value;
            exists text :: IsNumberText(text, n, fixed) && s == text + rest
  {
    var (n, rest) := TakeNumber(s, fixed).value;
    DigitOfValue(s[0]);
    if |s| > 1 && IsDigit(s[1]) {
      DigitOfValue(s[1]);
      TwoDigitsOf(DigitValue(s[0]).value, DigitValue(s[1]).value);
      hide Digit, DigitValue, TwoDigits;
      assert IsNumberText(TwoDigits(n), n, fixed) && s == TwoDigits(n) + rest;
    } else {
      hide Digit, DigitValue;
      assert IsNumberText([Digit(n)], n, fixed) && s == [Digit(n)] + rest;
    }
  }

  lemma TwoDigitsOf(high: nat, low: nat)
    requires high < 10 && low < 10
    ensures TwoDigits(10 * high + low) == [Digit(high), Digit(low)]
  {
  }

  lemma TakeNumberComplete(text: string, n: nat, rest: string, fixed: bool)
    requires IsNumberText(text, n, fixed) && (rest == "" || !IsDigit(rest[0]))
    ensures TakeNumber(text + rest, fixed) == Some((n, rest))
  {
    DigitRoundTrip(n / 10);
    DigitRoundTrip(n % 10);
    assert (text + rest)[|text|..] == rest;
    assert |text| > 1 ==> (text + rest)[0] == Digit(n / 10) && (text + rest)[1] == Digit(n % 10);
  }

  /** `list`, read as comma-separated decimal numbers, holds `v`. */
  predicate NumberListHolds(list: string, v: nat) {
    exists piece :: piece in Split(list, ',') && ParseDecimal(piece) == Some(v)
  }
}
