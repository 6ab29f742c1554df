/** The terminal side of the client (src/cli_interaction.rs): the tokeniser
    for command lines and the defaults the prompts fall back to when they
    fail. The prompts themselves are oracles: what the operator typed is an
    input, and `None` stands for a prompt that returned an error. */
module CliInteraction {
  import opened Wrappers

  /** Rust's `char::is_whitespace`: the characters with the Unicode
      White_Space property. */
  predicate IsWhitespace(c: char) {
    var n := c as int;
    (0x09 <= n <= 0x0D) || n == 0x20 || n == 0x85 || n == 0xA0 || n == 0x1680
    || (0x2000 <= n <= 0x200A) || n == 0x2028 || n == 0x2029 || n == 0x202F
    || n == 0x205F || n == 0x3000
  }

  predicate NoWhitespace(s: string) {
    forall i :: 0 <= i < |s| ==> !IsWhitespace(s[i])
  }

  predicate AllWhitespace(s: string) {
    forall i :: 0 <= i < |s| ==> IsWhitespace(s[i])
  }

  /** A token as `split_whitespace` yields it: non-empty, without whitespace. */
  predicate IsWord(w: string) {
    w != [] && NoWhitespace(w)
  }

  /** Length of the run of non-whitespace characters at the start of `s`. */
  function WordLen(s: string): (n: nat)
    ensures n <= |s|
    ensures NoWhitespace(s[..n])
    ensures n < |s| ==> IsWhitespace(s[n])
    ensures s != [] && !IsWhitespace(s[0]) ==> n > 0
  {
    if s == [] || IsWhitespace(s[0]) then 0
    else
      1 + WordLen(s[1..])
  }

  /** The words `str::split_whitespace` yields for `s`, left to right. */
  function Tokens(s: string): seq<string>
    decreases |s|
  {
    if s == [] then []
    else if IsWhitespace(s[0]) then Tokens(s[1..])
    else
      var n := WordLen(s);
      [s[..n]] + Tokens(s[n..])
  }

  /** `get_command`: prompt for a line (a failed prompt gives the empty
      string) and collect its whitespace-separated words. The scan below
      stands for the `split_whitespace` iterator the source loops over. */
  method GetCommand(input: Option<string>) returns (words: seq<string>)
    ensures words == Tokens(input.UnwrapOr(""))
    ensures input.None? ==> words == []
    ensures forall i :: 0 <= i < |words| ==> IsWord(words[i])
  {
    var line := input.UnwrapOr("");
    words := [];
    var word := "";
    var i := 0;
    assert word + line[i..] == line;
    while i < |line|
      invariant 0 <= i <= |line|
      invariant NoWhitespace(word)
      invariant words + Tokens(word + line[i..]) == Tokens(line)
    {
      if IsWhitespace(line[i]) {
        ScanWhitespace(line, i, words, word);
        if word != [] {
          words := words + [word];
          word := "";
        }
      } else {
        ScanWordChar(line, i, words, word);
        word := word + [line[i]];
      }
      i := i + 1;
    }
    ScanEnd(word);
    assert word + line[i..] == word;
    if word != [] {
      words := words + [word];
    }
    TokensAreWords(line);
  }

  /** A whitespace character in the scan of `GetCommand` ends the word
      being collected, if any. */
  lemma ScanWhitespace(line: string, i: nat, words: seq<string>, word: string)
    requires i < |line| && IsWhitespace(line[i]) && NoWhitespace(word)
    requires words + Tokens(word + line[i..]) == Tokens(line)
    ensures (if word != [] then words + [word] else words) + Tokens("" + line[i + 1..]) == Tokens(line)
  {
    assert line[i..][1..] == line[i + 1..];
    assert "" + line[i + 1..] == line[i + 1..];
    if word != [] {
      TokensAfterWord(word, line[i..]);
    } else {
      assert word + line[i..] == line[i..];
    }
  }

  /** Any other character extends the word being collected. */
  lemma ScanWordChar(line: string, i: nat, words: seq<string>, word: string)
    requires i < |line| && !IsWhitespace(line[i]) && NoWhitespace(word)
    requires words + Tokens(word + line[i..]) == Tokens(line)
    ensures NoWhitespace(word + [line[i]])
    ensures words + Tokens((word + [line[i]]) + line[i + 1..]) == Tokens(line)
  {
    assert (word + [line[i]]) + line[i + 1..] == word + line[i..];
  }

  /** The end of the line ends the word being collected. */
  lemma ScanEnd(word: string)
    requires NoWhitespace(word)
    ensures Tokens(word) == if word == [] then [] else [word]
  {
    if word != [] {
      TokensAfterWord(word, []);
      assert word + [] == word;
    }
  }

  /** `get_credentials`: a failed username or password prompt yields the
      empty string for that field. */
  function GetCredentials(username: Option<string>, password: Option<string>): (r: (string, string))
    ensures username.None? ==> r.0 == []
    ensures password.None? ==> r.1 == []
    ensures username.Some? ==> r.0 == username.value
    ensures password.Some? ==> r.1 == password.value
  {
    (username.UnwrapOr(""), password.UnwrapOr(""))
  }

  /** `retry_credentials`: `unwrap_or_default` on the confirmation, so a
      failed prompt counts as declining. */
  function RetryCredentials(answer: Option<bool>): (retry: bool)
    ensures retry <==> answer == Some(true)
  {
    answer.UnwrapOr(false)
  }

  // ---------------------------------------------------------------------
  // Properties of the tokeniser

  lemma {:induction false} WordLenOf(w: string, t: string)
    requires NoWhitespace(w)
    requires t == [] || IsWhitespace(t[0])
    ensures WordLen(w + t) == |w|
  {
    if w == [] {
      assert w + t == t;
    } else {
      assert (w + t)[0] == w[0];
      assert (w + t)[1..] == w[1..] + t;
      WordLenOf(w[1..], t);
    }
  }

  /** A word followed by the end of the line or by whitespace is one token. */
  lemma TokensAfterWord(w: string, t: string)
    requires IsWord(w)
    requires t == [] || IsWhitespace(t[0])
    ensures Tokens(w + t) == [w] + Tokens(t)
  {
    WordLenOf(w, t);
    assert (w + t)[..|w|] == w;
    assert (w + t)[|w|..] == t;
  }

  /** Leading whitespace contributes nothing. */
  lemma {:induction false} TokensAfterBlank(g: string, t: string)
    requires AllWhitespace(g)
    ensures Tokens(g + t) == Tokens(t)
  {
    if g != [] {
      assert (g + t)[0] == g[0];
      assert (g + t)[1..] == g[1..] + t;
      TokensAfterBlank(g[1..], t);
    } else {
      assert g + t == t;
    }
  }

  /** Every token is non-empty and holds no whitespace character. */
  lemma {:induction false} TokensAreWords(s: string)
    ensures forall i :: 0 <= i < |Tokens(s)| ==> IsWord(Tokens(s)[i])
    decreases |s|
  {
    if s == [] {
    } else if IsWhitespace(s[0]) {
      TokensAreWords(s[1..]);
    } else {
      TokensAreWords(s[WordLen(s)..]);
    }
  }

  /** A line yields no token exactly when it is empty or all whitespace. */
  lemma {:induction false} NoTokensIffBlank(s: string)
    ensures Tokens(s) == [] <==> AllWhitespace(s)
    decreases |s|
  {
    if s != [] {
      if IsWhitespace(s[0]) {
        NoTokensIffBlank(s[1..]);
        assert AllWhitespace(s) <==> AllWhitespace(s[1..]) by {
          assert forall i :: 1 <= i < |s| ==> s[i] == s[1..][i - 1];
        }
      }
    }
  }

  /** The characters of `s` that are not whitespace, in order. */
  function Squeeze(s: string): string {
    if s == [] then [] else (if IsWhitespace(s[0]) then [] else [s[0]]) + Squeeze(s[1..])
  }

  /** The strings of `ws` written one after another. */
  function Flatten(ws: seq<string>): string {
    if ws == [] then [] else ws[0] + Flatten(ws[1..])
  }

  lemma {:induction false} SqueezeAppend(a: string, b: string)
    ensures Squeeze(a + b) == Squeeze(a) + Squeeze(b)
  {
    if a == [] {
      assert a + b == b;
    } else {
      assert (a + b)[0] == a[0];
      assert (a + b)[1..] == a[1..] + b;
      SqueezeAppend(a[1..], b);
    }
  }

  lemma {:induction false} SqueezeWord(w: string)
    requires NoWhitespace(w)
    ensures Squeeze(w) == w
  {
    if w != [] {
      SqueezeWord(w[1..]);
    }
  }

  /** Concatenating the tokens gives the line with its whitespace removed. */
  lemma {:induction false} TokensConcatenate(s: string)
    ensures Flatten(Tokens(s)) == Squeeze(s)
    decreases |s|
  {
    if s == [] {
    } else if IsWhitespace(s[0]) {
      TokensConcatenate(s[1..]);
    } else {
      var n := WordLen(s);
      TokensConcatenate(s[n..]);
      assert s == s[..n] + s[n..];
      SqueezeAppend(s[..n], s[n..]);
      SqueezeWord(s[..n]);
      assert ([s[..n]] + Tokens(s[n..]))[1..] == Tokens(s[n..]);
    }
  }

  /** The words of `ws` separated by single spaces (`join(" ")`). */
  function JoinSpaces(ws: seq<string>): string {
    if ws == [] then []
    else if |ws| == 1 then ws[0]
    else ws[0] + " " + JoinSpaces(ws[1..])
  }

  /** Re-tokenising tokens joined with single spaces gives them back. */
  lemma {:induction false} TokensOfJoin(ws: seq<string>)
    requires forall i :: 0 <= i < |ws| ==> IsWord(ws[i])
    ensures Tokens(JoinSpaces(ws)) == ws
  {
    if |ws| == 1 {
      TokensAfterWord(ws[0], []);
      assert ws[0] + [] == ws[0];
    } else if |ws| > 1 {
      var rest := JoinSpaces(ws[1..]);
      assert IsWhitespace((" " + rest)[0]);
      TokensAfterWord(ws[0], " " + rest);
      assert ws[0] + " " + rest == ws[0] + (" " + rest);
      TokensAfterBlank(" ", rest);
      TokensOfJoin(ws[1..]);
      assert ws == [ws[0]] + ws[1..];
    }
  }

  // ---------------------------------------------------------------------
  // The tokens are exactly the maximal non-whitespace runs

  /** `gaps[0] + words[0] + gaps[1] + ... + words[n-1] + gaps[n]`. */
  function Interleave(gaps: seq<string>, words: seq<string>): string
    requires |gaps| == |words| + 1
  {
    if words == [] then gaps[0]
    else gaps[0] + (words[0] + Interleave(gaps[1..], words[1..]))
  }

  /** `s` is the words of `words`, left to right, with whitespace-only gaps
      around them and a non-empty gap between any two of them: the words are
      the maximal non-whitespace runs of `s`. */
  ghost predicate IsWordSplit(s: string, words: seq<string>, gaps: seq<string>) {
    && |gaps| == |words| + 1
    && (forall i :: 0 <= i < |gaps| ==> AllWhitespace(gaps[i]))
    && (forall i :: 0 < i < |words| ==> gaps[i] != [])
    && (forall i :: 0 <= i < |words| ==> IsWord(words[i]))
    && s == Interleave(gaps, words)
  }

  /** Any split of `s` into maximal runs is the one `Tokens` computes. */
  lemma {:induction false} WordSplitIsTokens(s: string, words: seq<string>, gaps: seq<string>)
    requires IsWordSplit(s, words, gaps)
    ensures Tokens(s) == words
    decreases |words|
  {
    if words == [] {
      TokensAfterBlank(gaps[0], []);
      assert gaps[0] + [] == gaps[0];
    } else {
      var rest := Interleave(gaps[1..], words[1..]);
      TokensAfterBlank(gaps[0], words[0] + rest);
      if words[1..] == [] {
        assert rest == gaps[1];
      } else {
        assert rest == gaps[1] + (words[1] + Interleave(gaps[2..], words[2..]));
        assert rest[0] == gaps[1][0];
      }
      TokensAfterWord(words[0], rest);
      assert IsWordSplit(rest, words[1..], gaps[1..]) by {
        forall i | 0 < i < |words[1..]| ensures gaps[1..][i] != [] {
          assert gaps[1..][i] == gaps[i + 1];
        }
      }
      WordSplitIsTokens(rest, words[1..], gaps[1..]);
      assert words == [words[0]] + words[1..];
    }
  }

  /** `Tokens(s)` is a split of `s` into maximal runs. */
  lemma {:induction false} TokensSplit(s: string) returns (gaps: seq<string>)
    ensures IsWordSplit(s, Tokens(s), gaps)
    decreases |s|
  {
    TokensAreWords(s);
    if s == [] {
      gaps := [[]];
    } else if IsWhitespace(s[0]) {
      var g := TokensSplit(s[1..]);
      gaps := [[s[0]] + g[0]] + g[1..];
      InterleaveConsGap(s[0], g, Tokens(s[1..]));
      assert s == [s[0]] + s[1..];
      forall i | 0 <= i < |gaps| ensures AllWhitespace(gaps[i]) {
        if i > 0 { assert gaps[i] == g[i]; }
      }
      forall i | 0 < i < |Tokens(s)| ensures gaps[i] != [] {
        assert gaps[i] == g[i];
      }
    } else {
      var n := WordLen(s);
      var ts := Tokens(s[n..]);
      var g := TokensSplit(s[n..]);
      gaps := [[]] + g;
      assert gaps[1..] == g;
      assert ([s[..n]] + ts)[1..] == ts;
      assert Interleave(gaps, [s[..n]] + ts) == [] + (s[..n] + Interleave(g, ts));
      assert s == s[..n] + s[n..];
      forall i | 0 < i < |Tokens(s)| ensures gaps[i] != [] {
        assert gaps[i] == g[i - 1];
      }
    }
  }

  lemma InterleaveConsGap(c: char, g: seq<string>, words: seq<string>)
    requires |g| == |words| + 1
    ensures Interleave([[c] + g[0]] + g[1..], words) == [c] + Interleave(g, words)
  {
    var gaps := [[c] + g[0]] + g[1..];
    assert gaps[1..] == g[1..];
  }

  /** Both directions together: a sequence of words is the token list of
      `s` exactly when `s` splits into those words as maximal runs. */
  lemma TokensAreMaximalRuns(s: string, words: seq<string>)
    ensures Tokens(s) == words <==> exists gaps :: IsWordSplit(s, words, gaps)
  {
    if Tokens(s) == words {
      var gaps := TokensSplit(s);
    }
    if exists gaps :: IsWordSplit(s, words, gaps) {
      var gaps :| IsWordSplit(s, words, gaps);
      WordSplitIsTokens(s, words, gaps);
    }
  }
}
