// How tools/kconfig/expr.c reads a number from the text of a symbol: strtoll and strtoull
// of the C library, and the checks around them.
module StringValues {
  import opened Options
  import opened Words

  predicate IsSpace(c: char) {
    c == ' ' || '\t' <= c <= '\r'
  }

  predicate IsDigit(c: char) {
    '0' <= c <= '9'
  }

  function DigitValue(c: char): nat {
    if IsDigit(c) then c as int - '0' as int
    else if 'a' <= c <= 'z' then c as int - 'a' as int + 10
    else if 'A' <= c <= 'Z' then c as int - 'A' as int + 10
    else 36
  }

  // The value of a text of digits; None for the empty text or another character.
  function Digits(base: nat, s: string): Option<nat> {
    if s == "" then None
    else
      var front, d := s[..|s| - 1], DigitValue(s[|s| - 1]);
      if d >= base then None
      else if front == "" then Some(d)
      else match Digits(base, front)
        case None => None
        case Some(v) => Some(v * base + d)
  }

  function SkipSpace(s: string): string {
    if s != "" && IsSpace(s[0]) then SkipSpace(s[1..]) else s
  }

  predicate HasHexPrefix(s: string) {
    |s| > 2 && s[0] == '0' && (s[1] == 'x' || s[1] == 'X')
  }

  // Base 0 reads 0x as hexadecimal, a leading 0 as octal, anything else as decimal.
  function Unsigned(base: nat, s: string): Option<nat> {
    if (base == 0 || base == 16) && HasHexPrefix(s) then Digits(16, s[2..])
    else if base != 0 then Digits(base, s)
    else if s != "" && s[0] == '0' then Digits(8, s)
    else Digits(10, s)
  }

  predicate IsSign(c: char) {
    c == '-' || c == '+'
  }

  // The number that the whole text spells, which must end in a decimal digit.
  function Number(base: nat, text: string): Option<int> {
    var s := SkipSpace(text);
    if s == "" || !IsDigit(s[|s| - 1]) then None
    else match Unsigned(base, if IsSign(s[0]) then s[1..] else s)
      case None => None
      case Some(v) => Some(if s[0] == '-' then 0 - v else v)
  }

  // strtoll; a number that does not fit sets errno.
  function StrToLL(base: nat, text: string): Option<int> {
    match Number(base, text)
    case None => None
    case Some(v) => if 0 - WORD / 2 <= v < WORD / 2 then Some(v) else None
  }

  // strtoull; a minus sign negates in 64-bit arithmetic.
  function StrToULL(base: nat, text: string): Option<nat> {
    match Number(base, text)
    case None => None
    case Some(v) => if 0 - WORD < v < WORD then Some(v % WORD) else None
  }

  // The text of no, mod and yes.
  function TristateText(t: int): string {
    if t == 0 then "n" else if t == 1 then "m" else "y"
  }

  // The tristate value that a constant of this text equals, if any.
  function Denoted(text: string): (r: Option<int>)
    ensures r.Some? ==> 0 <= r.value <= 2
  {
    match StrToLL(0, text)
    case Some(v) => if 0 <= v <= 2 then Some(v) else None
    case None => if text == "n" then Some(0) else if text == "m" then Some(1) else if text == "y" then Some(2) else None
  }

  // Some spellings of 2, and texts that are no tristate value.
  lemma Spellings()
    ensures Denoted("2") == Denoted("02") == Denoted("0x2") == Some(2) && Denoted("1") == Some(1)
    ensures Denoted("08") == Denoted("0xa") == Denoted("abc") == Denoted("3") == None
  {
    assert "2"[..0] == "3"[..0] == "1"[..0] == "0"[..0] == "";
    assert "02"[..1] == "0" && "08"[..1] == "0" && "0x2"[2..] == "2";
    assert "abc"[..2] == "ab" && "ab"[..1] == "a";
    assert Digits(10, "2") == Some(2) && Digits(16, "2") == Some(2) && Digits(8, "0") == Some(0);
    assert Digits(10, "1") == Some(1) && Digits(10, "3") == Some(3);
    assert Digits(8, "02") == Some(2) && Digits(8, "08") == None && Digits(10, "abc") == None;
  }

  // strcmp, up to the size of its answer.
  function StrCmp(a: string, b: string): int {
    if a == "" then (if b == "" then 0 else -1)
    else if b == "" then 1
    else if a[0] < b[0] then -1
    else if a[0] > b[0] then 1
    else StrCmp(a[1..], b[1..])
  }

  lemma {:induction false} StrCmpZero(a: string, b: string)
    ensures StrCmp(a, b) == 0 <==> a == b
  {
    if a != "" && b != "" && a[0] == b[0] {
      StrCmpZero(a[1..], b[1..]);
      assert a == [a[0]] + a[1..] && b == [b[0]] + b[1..];
    }
  }
}
