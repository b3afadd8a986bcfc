/**
 * Whitespace tokenisation as done by reading a line through
 * `std::istream_iterator<std::string>`: every maximal run of characters
 * that `isspace` rejects (in the "C" locale) is one token.
 */
module Tokens {

  /** The characters `isspace` accepts in the "C" locale. */
  predicate IsSpace(c: char) {
    c == ' ' || c == '\t' || c == '\n' || c == '\U{B}' || c == '\U{C}' || c == '\r'
  }

  predicate AllSpace(s: string) {
    forall i :: 0 <= i < |s| ==> IsSpace(s[i])
  }

  /** A token: non-empty and free of white space. */
  predicate IsWord(w: string) {
    |w| > 0 && forall i :: 0 <= i < |w| ==> !IsSpace(w[i])
  }

  predicate AllWords(ws: seq<string>) {
    forall i :: 0 <= i < |ws| ==> IsWord(ws[i])
  }

  /** Drops the leading white space of `s`. */
  function SkipSpace(s: string): (r: string)
    ensures |r| <= |s|
    ensures r == [] <==> AllSpace(s)
    ensures r == [] || !IsSpace(r[0])
    ensures s == [] || !IsSpace(s[0]) ==> r == s
  {
    if s != [] && IsSpace(s[0]) then SkipSpace(s[1..]) else s
  }

  /** The longest prefix of `s` without white space. */
  function Word(s: string): (w: string)
    ensures |w| <= |s| && w == s[..|w|]
    ensures forall i :: 0 <= i < |w| ==> !IsSpace(w[i])
    ensures |w| == |s| || IsSpace(s[|w|])
  {
    if s == [] || IsSpace(s[0]) then [] else [s[0]] + Word(s[1..])
  }

  /** The tokens of a line, in order. */
  function Tokenize(s: string): (ts: seq<string>)
    ensures AllWords(ts)
    ensures ts == [] <==> AllSpace(s)
    decreases |s|
  {
    var t := SkipSpace(s);
    if t == [] then []
    else
      var w := Word(t);
      [w] + Tokenize(t[|w|..])
  }

  /** The words joined by single spaces: the way a client writes a command line. */
  function Unwords(ws: seq<string>): string {
    if |ws| == 0 then []
    else if |ws| == 1 then ws[0]
    else ws[0] + " " + Unwords(ws[1..])
  }

  lemma {:induction false} WordOfJoined(w: string, rest: string)
    requires forall i :: 0 <= i < |w| ==> !IsSpace(w[i])
    requires rest == [] || IsSpace(rest[0])
    ensures Word(w + rest) == w
    decreases |w|
  {
    if w != [] {
      assert (w + rest)[1..] == w[1..] + rest;
      WordOfJoined(w[1..], rest);
    } else {
      assert w + rest == rest;
    }
  }

  lemma TokenizeSkipsSpace(c: char, s: string)
    requires IsSpace(c)
    ensures Tokenize([c] + s) == Tokenize(s)
  {
    assert ([c] + s)[1..] == s;
  }

  /** A leading token is split off whole, up to the white space after it. */
  lemma TokenizeLeadingWord(w: string, rest: string)
    requires IsWord(w)
    requires rest == [] || IsSpace(rest[0])
    ensures Tokenize(w + rest) == [w] + Tokenize(rest)
  {
    var s := w + rest;
    assert SkipSpace(s) == s;
    WordOfJoined(w, rest);
    assert s[|w|..] == rest;
  }

  /** A token followed by a separating space and more text. */
  lemma TokenizeSpaced(w: string, more: string)
    requires IsWord(w)
    ensures Tokenize(w + ([' '] + more)) == [w] + Tokenize(more)
  {
    TokenizeLeadingWord(w, [' '] + more);
    TokenizeSkipsSpace(' ', more);
  }

  /** A last token followed only by white space. */
  lemma TokenizeLastWord(w: string, tail: string)
    requires IsWord(w)
    requires AllSpace(tail)
    ensures Tokenize(w + tail) == [w]
  {
    TokenizeLeadingWord(w, tail);
  }

  lemma UnwordsCons(ws: seq<string>, tail: string)
    requires |ws| > 1
    ensures Unwords(ws) + tail == ws[0] + ([' '] + (Unwords(ws[1..]) + tail))
  {
  }

  /** One step of the round trip: the first word, then the rest of the line. */
  lemma TokenizeUnwordsStep(ws: seq<string>, tail: string)
    requires |ws| > 1 && IsWord(ws[0])
    requires Tokenize(Unwords(ws[1..]) + tail) == ws[1..]
    ensures Tokenize(Unwords(ws) + tail) == ws
  {
    var more := Unwords(ws[1..]) + tail;
    var line := ws[0] + ([' '] + more);
    assert Unwords(ws) + tail == line by {
      UnwordsCons(ws, tail);
    }
    assert Tokenize(line) == [ws[0]] + ws[1..] by {
      TokenizeSpaced(ws[0], more);
    }
    assert ws == [ws[0]] + ws[1..];
  }

  /** Tokenising a joined line, with any trailing white space such as CRLF, gives back the words. */
  lemma {:induction false} TokenizeUnwords(ws: seq<string>, tail: string)
    requires AllWords(ws)
    requires AllSpace(tail)
    ensures Tokenize(Unwords(ws) + tail) == ws
    decreases |ws|
  {
    if |ws| == 0 {
      assert Unwords(ws) + tail == tail;
    } else if |ws| == 1 {
      assert IsWord(ws[0]) && ws == [ws[0]];
      TokenizeLastWord(ws[0], tail);
    } else {
      assert AllWords(ws[1..]) by {
        forall i | 0 <= i < |ws[1..]| ensures IsWord(ws[1..][i]) {
          assert ws[1..][i] == ws[i + 1];
        }
      }
      TokenizeUnwords(ws[1..], tail);
      assert IsWord(ws[0]);
      TokenizeUnwordsStep(ws, tail);
    }
  }
}
