/** The typed entry is compared after `String.prototype.trim`, which strips the
    ECMAScript white space and line terminators from both ends. The live "wrong"
    flag is on when the trimmed entry is not empty and is not a prefix of the
    current word. */
module InputCheck {

  /** ECMAScript WhiteSpace and LineTerminator: tab, vertical tab, form feed, space,
      no-break space, the byte order mark, the Unicode space separators, line feed,
      carriage return, line and paragraph separators. */
  predicate IsWhitespace(c: char)
  {
    || c == '\t' || c == '\U{000B}' || c == '\U{000C}' || c == ' '
    || c == '\U{00A0}' || c == '\U{FEFF}' || c == '\U{1680}'
    || ('\U{2000}' <= c <= '\U{200A}')
    || c == '\U{202F}' || c == '\U{205F}' || c == '\U{3000}'
    || c == '\n' || c == '\r' || c == '\U{2028}' || c == '\U{2029}'
  }

  /** Length of the run of white space at the front of `s`. */
  function LeadingWs(s: string): (n: nat)
    ensures n <= |s|
    ensures forall k :: 0 <= k < n ==> IsWhitespace(s[k])
    ensures n < |s| ==> !IsWhitespace(s[n])
  {
    if s == [] || !IsWhitespace(s[0]) then 0 else 1 + LeadingWs(s[1..])
  }

  /** Length of the run of white space at the back of `s`. */
  function TrailingWs(s: string): (n: nat)
    ensures n <= |s|
    ensures forall k :: |s| - n <= k < |s| ==> IsWhitespace(s[k])
    ensures n < |s| ==> !IsWhitespace(s[|s| - n - 1])
  {
    if s == [] || !IsWhitespace(s[|s| - 1]) then 0 else 1 + TrailingWs(s[..|s| - 1])
  }

  /** `s.trim()`: the entry with the white space at both of its ends removed. */
  function Trim(s: string): (r: string)
    ensures r == [] <==> forall k :: 0 <= k < |s| ==> IsWhitespace(s[k])
    ensures r != [] ==> !IsWhitespace(r[0]) && !IsWhitespace(r[|r| - 1])
    ensures |r| <= |s|
    ensures LeadingWs(s) + |r| <= |s| && r == s[LeadingWs(s)..LeadingWs(s) + |r|]
    ensures forall k :: LeadingWs(s) + |r| <= k < |s| ==> IsWhitespace(s[k])
  {
    var t := s[LeadingWs(s)..];
    var r := t[..|t| - TrailingWs(t)];
    assert r != [] ==> r[0] == s[LeadingWs(s)];
    r
  }

  /** `input.trim() && !currentWord.startsWith(input.trim())` (line 124). */
  predicate IsWrong(input: string, word: string)
  {
    var t := Trim(input);
    t != [] && !(t <= word)
  }

  /** A string without white space is its own trim. */
  lemma TrimNoWhitespace(s: string)
    requires forall k :: 0 <= k < |s| ==> !IsWhitespace(s[k])
    ensures Trim(s) == s
  {
  }

  /** Trimming twice is trimming once. */
  lemma TrimIdempotent(s: string)
    ensures Trim(Trim(s)) == Trim(s)
  {
  }

  /** Appending to a string with a non-white-space character leaves its leading
      white space as it is. */
  lemma LeadingWsOfExtension(s: string, more: string)
    requires LeadingWs(s) < |s|
    ensures LeadingWs(s + more) == LeadingWs(s)
  {
    var a := LeadingWs(s);
    assert forall k :: 0 <= k <= a ==> (s + more)[k] == s[k];
  }

  /** Appending to a string that does not end in white space keeps every one of
      its characters before the trailing white space of the longer string. */
  lemma TrailingWsOfExtension(t: string, more: string)
    requires TrailingWs(t) < |t|
    ensures |t| - TrailingWs(t) <= |t + more| - TrailingWs(t + more)
  {
    var p := |t| - TrailingWs(t) - 1;
    assert (t + more)[p] == t[p];
  }

  /** Typing more never changes where the trimmed entry starts nor makes it shorter:
      a non-empty trimmed entry is a prefix of the trimmed longer entry. */
  lemma TrimExtends(s: string, more: string)
    requires Trim(s) != []
    ensures Trim(s) <= Trim(s + more)
  {
    var a := LeadingWs(s);
    LeadingWsOfExtension(s, more);
    var t, tm := s[a..], (s + more)[a..];
    assert tm == t + more;
    TrailingWsOfExtension(t, more);
    var n := |t| - TrailingWs(t);
    assert Trim(s) == t[..n] && Trim(s + more) == tm[..|tm| - TrailingWs(tm)];
    assert forall k :: 0 <= k < n ==> Trim(s)[k] == Trim(s + more)[k];
  }

  /** Once the flag is on, no further typing turns the entry into the word: the
      submission at this point, or after any more keys, will not match. */
  lemma WrongIsFinal(input: string, word: string, more: string)
    requires IsWrong(input, word)
    ensures Trim(input + more) != word
  {
    TrimExtends(input, more);
  }

  /** The flag stays off while the user types a white-space-free word correctly,
      letter by letter. */
  lemma TypingPrefixIsNotWrong(word: string, k: nat)
    requires k <= |word|
    requires forall i :: 0 <= i < |word| ==> !IsWhitespace(word[i])
    ensures !IsWrong(word[..k], word)
  {
  }
}
