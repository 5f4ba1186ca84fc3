/** The reference text is turned into the word list once, when the component is
    created: every line feed becomes a space, then the text is split on the single
    character ' '. Consecutive separators give empty words; nothing is discarded. */
module Tokenizer {

  /** Number of occurrences of `c` in `s`. */
  function Count(s: string, c: char): nat
  {
    if s == [] then 0 else (if s[0] == c then 1 else 0) + Count(s[1..], c)
  }

  /** `text.replace(/\n/g, " ")`: each line feed, and nothing else, becomes a space. */
  function ReplaceNewlines(s: string): (r: string)
    ensures |r| == |s|
    ensures forall i :: 0 <= i < |s| ==> r[i] == (if s[i] == '\n' then ' ' else s[i])
  {
    if s == [] then [] else [if s[0] == '\n' then ' ' else s[0]] + ReplaceNewlines(s[1..])
  }

  /** `s.split(" ")`: the pieces between single spaces, always at least one piece
      (the empty string splits into one empty word). */
  function Split(s: string): (r: seq<string>)
    ensures |r| >= 1
    ensures forall w :: w in r ==> ' ' !in w
    ensures forall w, c :: w in r && c in w ==> c in s
  {
    if s == [] then [""]
    else
      var rest := Split(s[1..]);
      if s[0] == ' ' then [""] + rest
      else [[s[0]] + rest[0]] + rest[1..]
  }

  /** The words glued back together with one space between neighbours. */
  function Join(ws: seq<string>): string
  {
    if ws == [] then ""
    else if |ws| == 1 then ws[0]
    else ws[0] + " " + Join(ws[1..])
  }

  /** The word list built at line 12 of the component. */
  function Tokenize(text: string): seq<string>
  {
    Split(ReplaceNewlines(text))
  }

  /** A text without line feeds is tokenized by splitting it as it is. */
  lemma TokenizeWithoutNewlines(text: string)
    requires '\n' !in text
    ensures Tokenize(text) == Split(text)
  {
  }

  /** Joining the pieces of a split with single spaces gives the string back. */
  lemma {:induction false} JoinSplit(s: string)
    ensures Join(Split(s)) == s
  {
    if s != [] {
      var rest := Split(s[1..]);
      JoinSplit(s[1..]);
      if s[0] == ' ' {
        assert Split(s) == [""] + rest;
        assert Join(Split(s)) == "" + " " + Join(rest);
        assert s == [s[0]] + s[1..];
      } else if |rest| == 1 {
        assert Split(s) == [[s[0]] + rest[0]];
        assert s == [s[0]] + s[1..];
      } else {
        var first := [s[0]] + rest[0];
        assert Split(s) == [first] + rest[1..];
        assert Join(Split(s)) == first + " " + Join(rest[1..]);
        assert Join(rest) == rest[0] + " " + Join(rest[1..]);
        assert s == [s[0]] + s[1..];
      }
    }
  }

  /** Splitting a string that starts with a space-free word glues that word to the
      first piece of the rest. */
  lemma {:induction false} SplitAfterWord(w: string, s: string)
    requires ' ' !in w
    ensures Split(w + s) == [w + Split(s)[0]] + Split(s)[1..]
  {
    if w != [] {
      SplitAfterWord(w[1..], s);
      assert (w + s)[1..] == w[1..] + s;
      assert (w + s)[0] == w[0];
      assert [w[0]] + (w[1..] + Split(s)[0]) == w + Split(s)[0];
    } else {
      assert w + s == s;
      assert w + Split(s)[0] == Split(s)[0];
      assert [Split(s)[0]] + Split(s)[1..] == Split(s);
    }
  }

  /** Splitting a space-free word list joined with single spaces gives the list back. */
  lemma {:induction false} SplitJoin(ws: seq<string>)
    requires |ws| >= 1
    requires forall w :: w in ws ==> ' ' !in w
    ensures Split(Join(ws)) == ws
  {
    if |ws| == 1 {
      SplitAfterWord(ws[0], "");
      assert ws[0] + "" == ws[0];
    } else {
      SplitJoin(ws[1..]);
      var tail := " " + Join(ws[1..]);
      assert tail[1..] == Join(ws[1..]);
      assert Split(tail) == [""] + ws[1..];
      SplitAfterWord(ws[0], tail);
      assert Join(ws) == ws[0] + tail;
      assert ws[0] + "" == ws[0];
      assert ws == [ws[0]] + ws[1..];
    }
  }

  /** A split yields one more piece than there are spaces. */
  lemma {:induction false} SplitCount(s: string)
    ensures |Split(s)| == Count(s, ' ') + 1
  {
    if s != [] {
      SplitCount(s[1..]);
    }
  }

  /** Replacing line feeds turns every line feed into a space. */
  lemma {:induction false} ReplaceNewlinesCount(s: string)
    ensures Count(ReplaceNewlines(s), ' ') == Count(s, ' ') + Count(s, '\n')
    ensures Count(ReplaceNewlines(s), '\n') == 0
  {
    if s != [] {
      ReplaceNewlinesCount(s[1..]);
      assert ReplaceNewlines(s)[1..] == ReplaceNewlines(s[1..]);
    }
  }

  /** What the word list of line 12 is: space- and line-feed-free words, one more
      than the separators in the text, which give back the text (line feeds as
      spaces) when joined with spaces. */
  lemma TokenizeSpec(text: string)
    ensures |Tokenize(text)| == Count(text, ' ') + Count(text, '\n') + 1
    ensures forall w :: w in Tokenize(text) ==> ' ' !in w && '\n' !in w
    ensures Join(Tokenize(text)) == ReplaceNewlines(text)
  {
  }

  /** A line that ends with a space before its line feed, as every line of the
      sample text does, yields an empty word. */
  lemma EmptyWordFromLineEnd()
    ensures Tokenize("é. \nA") == ["é.", "", "A"]
  {
    var text, spaced := "é. \nA", "é.  A";
    var ws := ["é.", "", "A"];
    var r := ReplaceNewlines(text);
    assert forall i :: 0 <= i < |text| ==> r[i] == spaced[i];
    assert r == spaced;
    assert Join(ws) == spaced;
    SplitJoin(ws);
  }
}
