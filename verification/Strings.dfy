/** Whitespace in strings. */
module Strings {

  /** ASCII whitespace, as `str.split()` and `str.strip()` see it. */
  predicate Blank(c: char) {
    9 <= c as int <= 13 || 28 <= c as int <= 32
  }

  function RStrip(s: string): string {
    if s != [] && Blank(s[|s| - 1]) then RStrip(s[..|s| - 1]) else s
  }

  function LStrip(s: string): string {
    if s != [] && Blank(s[0]) then LStrip(s[1..]) else s
  }

  function Strip(s: string): string {
    LStrip(RStrip(s))
  }

  function Join(sections: seq<string>, gap: string): string {
    if sections == [] then [] else if |sections| == 1 then sections[0] else sections[0] + gap + Join(sections[1..], gap)
  }

  function Digits(n: nat): (s: string)
    ensures s != []
  {
    if n < 10 then [('0' as int + n) as char] else Digits(n / 10) + [('0' as int + n % 10) as char]
  }

  /** Tab, line feed, vertical tab, form feed, carriage return, the four separators, and the space. */
  lemma BlanksAre(c: char)
    ensures Blank(c) <==> c == '\t' || c == '\n' || c as int == 11 || c as int == 12 || c == '\r'
                          || c as int == 28 || c as int == 29 || c as int == 30 || c as int == 31 || c == ' '
  {
  }

  /** The number that a row of decimal digits stands for. */
  function Reads(s: string): int {
    if s == [] then 0 else 10 * Reads(s[..|s| - 1]) + (s[|s| - 1] as int - '0' as int)
  }

  /** The digits of a number are decimal, stand for it, and do not start with a zero unless it is zero. */
  lemma {:induction false} DigitsRead(n: nat)
    ensures Reads(Digits(n)) == n && forall c <- Digits(n) :: '0' <= c <= '9'
    ensures Digits(n)[0] == '0' ==> n == 0
  {
    var s := Digits(n);
    if n >= 10 {
      DigitsRead(n / 10);
      assert s[..|s| - 1] == Digits(n / 10);
    }
  }
}
