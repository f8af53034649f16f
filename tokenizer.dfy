/**
 * Splitting a command line into words the way `std::istream_iterator<std::string>`
 * does: runs of whitespace separate words, and no word is empty.
 */
module Tokenizer {

  /** The characters `std::isspace` accepts in the "C" locale. */
  predicate IsSpace(c: char) {
    c == ' ' || c == '\t' || c == '\n' || c == '\U{0B}' || c == '\U{0C}' || c == '\r'
  }

  predicate NoSpace(w: string) {
    forall i :: 0 <= i < |w| ==> !IsSpace(w[i])
  }

  predicate AllSpace(s: string) {
    forall i :: 0 <= i < |s| ==> IsSpace(s[i])
  }

  /** What one extraction `iss >> word` can produce: a non-empty run of non-space characters. */
  predicate IsWord(w: string) {
    w != [] && NoSpace(w)
  }

  predicate AreWords(ws: seq<string>) {
    forall k :: 0 <= k < |ws| ==> IsWord(ws[k])
  }

  /** The word being read, once it is finished: nothing if it is empty. */
  function Flush(word: string): (ws: seq<string>) {
    if word == [] then [] else [word]
  }

  /** The words of `word + s`, where `word` is the part of a word already read. */
  function Scan(s: string, word: string): (ws: seq<string>)
    ensures |ws| <= |s| + (if word == [] then 0 else 1)
    decreases |s|
  {
    if s == [] then Flush(word)
    else if IsSpace(s[0]) then Flush(word) + Scan(s[1..], [])
    else Scan(s[1..], word + [s[0]])
  }

  /** The token vector `executeCommand` builds from a line. */
  function Tokens(line: string): (ws: seq<string>)
    ensures |ws| <= |line|
  {
    Scan(line, [])
  }

  /** Words joined by single spaces: the line a user types for a token vector. */
  function Unwords(ws: seq<string>): (line: string) {
    if ws == [] then []
    else if |ws| == 1 then ws[0]
    else ws[0] + [' '] + Unwords(ws[1..])
  }

  /** All characters of `ws`, in order. */
  function Concat(ws: seq<string>): (s: string) {
    if ws == [] then [] else ws[0] + Concat(ws[1..])
  }

  /** The characters of `s` that are not whitespace, in order. */
  function Strip(s: string): (t: string) {
    if s == [] then []
    else if IsSpace(s[0]) then Strip(s[1..])
    else [s[0]] + Strip(s[1..])
  }

  lemma {:induction false} ScanYieldsWords(s: string, word: string)
    requires NoSpace(word)
    ensures AreWords(Scan(s, word))
    decreases |s|
  {
    if s != [] {
      if IsSpace(s[0]) {
        ScanYieldsWords(s[1..], []);
      } else {
        ScanYieldsWords(s[1..], word + [s[0]]);
      }
    }
  }

  /** Every token is non-empty and holds no whitespace. */
  lemma TokensAreWords(line: string)
    ensures AreWords(Tokens(line))
  {
    ScanYieldsWords(line, []);
  }

  lemma {:induction false} ScanEmptyIff(s: string, word: string)
    ensures Scan(s, word) == [] <==> word == [] && AllSpace(s)
    decreases |s|
  {
    if s != [] {
      if IsSpace(s[0]) {
        ScanEmptyIff(s[1..], []);
        assert AllSpace(s) <==> AllSpace(s[1..]) by {
          assert forall i :: 1 <= i < |s| ==> s[i] == s[1..][i - 1];
        }
      } else {
        ScanEmptyIff(s[1..], word + [s[0]]);
      }
    }
  }

  /** A line gives no tokens exactly when it is empty or all whitespace. */
  lemma TokensEmptyIff(line: string)
    ensures Tokens(line) == [] <==> AllSpace(line)
  {
    ScanEmptyIff(line, []);
  }

  lemma {:induction false} ScanKeepsCharacters(s: string, word: string)
    ensures Concat(Scan(s, word)) == word + Strip(s)
    decreases |s|
  {
    if s == [] {
      assert Concat([word]) == word + Concat([]);
    } else if IsSpace(s[0]) {
      ScanKeepsCharacters(s[1..], []);
      ConcatAppend(Flush(word), Scan(s[1..], []));
      assert Concat([word]) == word + Concat([]);
    } else {
      ScanKeepsCharacters(s[1..], word + [s[0]]);
      assert word + [s[0]] + Strip(s[1..]) == word + ([s[0]] + Strip(s[1..]));
    }
  }

  lemma {:induction false} ConcatAppend(a: seq<string>, b: seq<string>)
    ensures Concat(a + b) == Concat(a) + Concat(b)
    decreases |a|
  {
    if a == [] {
      assert a + b == b;
    } else {
      assert (a + b)[0] == a[0];
      assert (a + b)[1..] == a[1..] + b;
      ConcatAppend(a[1..], b);
      assert Concat(a + b) == a[0] + (Concat(a[1..]) + Concat(b));
    }
  }

  /** The tokens, put back together, are the line's non-space characters in order. */
  lemma TokensKeepCharacters(line: string)
    ensures Concat(Tokens(line)) == Strip(line)
  {
    ScanKeepsCharacters(line, []);
  }

  lemma {:induction false} ScanThroughWord(w: string, rest: string, word: string)
    requires NoSpace(w)
    ensures Scan(w + rest, word) == Scan(rest, word + w)
    decreases |w|
  {
    if w == [] {
      assert w + rest == rest;
      assert word + w == word;
    } else {
      assert (w + rest)[0] == w[0];
      assert (w + rest)[1..] == w[1..] + rest;
      ScanThroughWord(w[1..], rest, word + [w[0]]);
      assert word + [w[0]] + w[1..] == word + w;
    }
  }

  lemma {:induction false} UnwordsRoundTrip(ws: seq<string>)
    requires AreWords(ws)
    ensures Tokens(Unwords(ws)) == ws
    decreases |ws|
  {
    if ws == [] {
    } else if |ws| == 1 {
      ScanThroughWord(ws[0], [], []);
      assert ws[0] + [] == ws[0];
      assert [] + ws[0] == ws[0];
    } else {
      var tail := [' '] + Unwords(ws[1..]);
      assert Unwords(ws) == ws[0] + tail;
      ScanThroughWord(ws[0], tail, []);
      assert [] + ws[0] == ws[0];
      assert tail[0] == ' ' && tail[1..] == Unwords(ws[1..]);
      UnwordsRoundTrip(ws[1..]);
      assert ws == [ws[0]] + ws[1..];
    }
  }

  /**
   * Fills the token vector one character at a time, as the stream extraction
   * loop does, and is proved to produce `Tokens(line)`.
   */
  method Tokenize(line: string) returns (tokens: seq<string>)
    ensures tokens == Tokens(line)
    ensures AreWords(tokens)
  {
    tokens := [];
    var word: string := [];
    var i := 0;
    while i < |line|
      invariant 0 <= i <= |line|
      invariant tokens + Scan(line[i..], word) == Tokens(line)
    {
      assert line[i..][0] == line[i] && line[i..][1..] == line[i + 1..];
      if IsSpace(line[i]) {
        assert tokens + Flush(word) + Scan(line[i + 1..], []) == Tokens(line);
        tokens := tokens + Flush(word);
        word := [];
      } else {
        word := word + [line[i]];
      }
      i := i + 1;
    }
    assert line[i..] == [];
    tokens := tokens + Flush(word);
    TokensAreWords(line);
  }
}
