/** The parts of Python's `str` the modelled code relies on. */
module PyText {

  /** `str.isspace` on one character; also what `str.strip` removes. */
  predicate IsSpace(c: char) {
    var n := c as int;
    9 <= n <= 13 || 0x1c <= n <= 0x20 || n == 0x85 || n == 0xa0 || n == 0x1680
    || 0x2000 <= n <= 0x200a || n == 0x2028 || n == 0x2029 || n == 0x202f || n == 0x205f || n == 0x3000
  }

  /** `not text.strip()`. */
  predicate Blank(text: string) {
    forall i | 0 <= i < |text| :: IsSpace(text[i])
  }

  function StripLeft(text: string): string {
    if text != "" && IsSpace(text[0]) then StripLeft(text[1..]) else text
  }

  function StripRight(text: string): string {
    if text != "" && IsSpace(text[|text| - 1]) then StripRight(text[..|text| - 1]) else text
  }

  /** `str.strip`. */
  function Strip(text: string): string {
    StripRight(StripLeft(text))
  }

  /** `str` of a natural number. */
  function Decimal(n: nat): (text: string)
    ensures text != []
  {
    (if n < 10 then "" else Decimal(n / 10)) + [Digit(n % 10)]
  }

  function Digit(n: nat): char
    requires n < 10
  {
    ('0' as int + n) as char
  }

  /** `separator.join(parts)`. */
  function Join(parts: seq<string>, separator: string): string {
    if parts == [] then "" else if |parts| == 1 then parts[0]
    else parts[0] + separator + Join(parts[1..], separator)
  }

  lemma {:induction false} StripLeftIs(text: string) returns (n: nat)
    ensures n <= |text| && StripLeft(text) == text[n..]
    ensures forall i | 0 <= i < n :: IsSpace(text[i])
    ensures n < |text| ==> !IsSpace(text[n])
  {
    if text != "" && IsSpace(text[0]) {
      var m := StripLeftIs(text[1..]);
      assert forall i | 0 < i <= m :: text[i] == text[1..][i - 1];
      n := m + 1;
    } else {
      n := 0;
    }
  }

  lemma {:induction false} StripRightIs(text: string) returns (n: nat)
    ensures n <= |text| && StripRight(text) == text[..n]
    ensures forall i | n <= i < |text| :: IsSpace(text[i])
    ensures n > 0 ==> !IsSpace(text[n - 1])
  {
    if text != "" && IsSpace(text[|text| - 1]) {
      n := StripRightIs(text[..|text| - 1]);
      assert text[..|text| - 1][..n] == text[..n];
    } else {
      n := |text|;
    }
  }

  /** Stripping takes blanks off both ends and leaves a text without any there. */
  lemma StripMeans(text: string) returns (from: nat, to: nat)
    ensures from <= to <= |text| && Strip(text) == text[from..to]
    ensures forall i | 0 <= i < |text| && !(from <= i < to) :: IsSpace(text[i])
    ensures from < to ==> !IsSpace(text[from]) && !IsSpace(text[to - 1])
  {
    from := StripLeftIs(text);
    var n := StripRightIs(text[from..]);
    to := from + n;
    assert text[from..][..n] == text[from..to];
    assert forall i | from <= i < |text| :: text[i] == text[from..][i - from];
  }
}
