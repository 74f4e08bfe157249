/**
 Character classes and the two string operations the receipt service relies on:
 `str.strip()` and `str.split(sep)[-1]`.

 Python's classes are Unicode-aware; this module restricts them to ASCII.
 */
module Text {

  predicate IsDigit(c: char) {
    '0' <= c <= '9'
  }

  predicate IsLetter(c: char) {
    'a' <= c <= 'z' || 'A' <= c <= 'Z'
  }

  /** `str.isalnum` on ASCII characters. */
  predicate IsAlnum(c: char) {
    IsLetter(c) || IsDigit(c)
  }

  /** The regular-expression class `\w` on ASCII characters. */
  predicate IsWordChar(c: char) {
    IsAlnum(c) || c == '_'
  }

  /** `str.isspace` (and the class `\s`) on ASCII characters:
      tab, line feed, vertical tab, form feed, carriage return,
      the four separators 0x1C-0x1F, and space. */
  predicate IsSpace(c: char) {
    9 <= c as int <= 13 || 28 <= c as int <= 32
  }

  predicate AllDigits(s: string) {
    forall i :: 0 <= i < |s| ==> IsDigit(s[i])
  }

  /** The length of the run of whitespace at the start of `s`. */
  function LeadingSpaces(s: string): (k: nat)
    ensures k <= |s|
    ensures forall i :: 0 <= i < k ==> IsSpace(s[i])
    ensures k < |s| ==> !IsSpace(s[k])
  {
    if |s| == 0 || !IsSpace(s[0]) then 0 else 1 + LeadingSpaces(s[1..])
  }

  /** The length of the run of whitespace at the end of `s`. */
  function TrailingSpaces(s: string): (k: nat)
    ensures k <= |s|
    ensures forall i :: |s| - k <= i < |s| ==> IsSpace(s[i])
    ensures k < |s| ==> !IsSpace(s[|s| - 1 - k])
  {
    if |s| == 0 || !IsSpace(s[|s| - 1]) then 0 else 1 + TrailingSpaces(s[..|s| - 1])
  }

  /** `s.strip()`: the slice of `s` between its leading and trailing whitespace. */
  function Strip(s: string): (r: string)
    ensures LeadingSpaces(s) + |r| <= |s|
    ensures r == s[LeadingSpaces(s)..LeadingSpaces(s) + |r|]
    ensures forall j :: LeadingSpaces(s) + |r| <= j < |s| ==> IsSpace(s[j])
    ensures |r| > 0 ==> !IsSpace(r[0]) && !IsSpace(r[|r| - 1])
  {
    var tail := s[LeadingSpaces(s)..];
    tail[..|tail| - TrailingSpaces(tail)]
  }

  /** Stripping leaves nothing exactly when the string is all whitespace. */
  lemma StripEmptyIff(s: string)
    ensures |Strip(s)| == 0 <==> forall i :: 0 <= i < |s| ==> IsSpace(s[i])
  {
    var k := LeadingSpaces(s);
    if |Strip(s)| > 0 {
      assert !IsSpace(s[k]);
    }
  }

  /** A string that neither starts nor ends with whitespace is its own strip,
      and so is that string followed by one newline. */
  lemma StripUnpadded(b: string)
    requires |b| > 0 && !IsSpace(b[0]) && !IsSpace(b[|b| - 1])
    ensures Strip(b) == b
    ensures Strip(b + "\n") == b
  {
    var s := b + "\n";
    assert LeadingSpaces(s) == 0;
    assert LeadingSpaces(b) == 0;
    assert s[|b| - 1] == b[|b| - 1];
  }

  /** Stripping twice is stripping once. */
  lemma StripIdempotent(s: string)
    ensures Strip(Strip(s)) == Strip(s)
  {
    var r := Strip(s);
    if |r| > 0 {
      StripUnpadded(r);
    }
  }

  /** `s.split(sep)[-1]`: the text after the last `sep`, or all of `s` when
      `sep` does not occur. */
  function LastSegment(s: string, sep: char): (r: string)
    ensures |r| <= |s| && r == s[|s| - |r|..]
    ensures forall i :: 0 <= i < |r| ==> r[i] != sep
    ensures |r| < |s| ==> s[|s| - |r| - 1] == sep
  {
    if |s| == 0 || s[|s| - 1] == sep then ""
    else LastSegment(s[..|s| - 1], sep) + [s[|s| - 1]]
  }
}
