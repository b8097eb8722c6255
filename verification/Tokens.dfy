/** Tokenizing a query (backend/app/modules/knowledge/bm25.py). */
module Tokens {
  import opened Text

  /** What the tokenizer takes from Unicode: the characters `[\w']` matches, and `str.lower`. */
  datatype Alphabet = Alphabet(isWord: char -> bool, lower: string -> string)

  function WordEnd(a: Alphabet, t: string, i: nat): (end: nat)
    requires i <= |t|
    ensures i <= end <= |t|
    ensures forall j :: i <= j < end ==> a.isWord(t[j])
    ensures end < |t| ==> !a.isWord(t[end])
    decreases |t| - i
  {
    if i == |t| || !a.isWord(t[i]) then i else WordEnd(a, t, i + 1)
  }

  /** `_WORD_RE.findall(t)`: the maximal runs of word characters. */
  function Words(a: Alphabet, t: string): seq<string>
    decreases |t|
  {
    if t == "" then []
    else if !a.isWord(t[0]) then Words(a, t[1..])
    else
      var end := WordEnd(a, t, 1);
      [t[..end]] + Words(a, t[end..])
  }

  function LowerAll(a: Alphabet, words: seq<string>): (lowered: seq<string>)
    ensures |lowered| == |words|
    ensures forall i :: 0 <= i < |words| ==> lowered[i] == a.lower(words[i])
  {
    seq(|words|, i requires 0 <= i < |words| => a.lower(words[i]))
  }

  function Tokenize(a: Alphabet, t: string): seq<string> {
    LowerAll(a, Words(a, t))
  }

  predicate IsWordText(a: Alphabet, t: string) {
    t != "" && forall i :: 0 <= i < |t| ==> a.isWord(t[i])
  }

  /** Facts about `lower`: its results are made of characters it leaves alone, a text of such
      characters is left alone, and a blank is not a word character. */
  ghost predicate Lowercases(a: Alphabet, settled: char -> bool) {
    && (forall s :: AllSettled(settled, a.lower(s)))
    && (forall s :: AllSettled(settled, s) ==> a.lower(s) == s)
    && !a.isWord(' ')
  }

  ghost predicate AllSettled(settled: char -> bool, s: string) {
    forall i :: 0 <= i < |s| ==> settled(s[i])
  }

  lemma {:induction false} WordsAreWords(a: Alphabet, t: string, k: nat)
    requires k < |Words(a, t)|
    ensures IsWordText(a, Words(a, t)[k])
    ensures forall i :: 0 <= i < |Words(a, t)[k]| ==> Words(a, t)[k][i] in t
    decreases |t|
  {
    if !a.isWord(t[0]) {
      WordsAreWords(a, t[1..], k);
    } else if k > 0 {
      WordsAreWords(a, t[WordEnd(a, t, 1)..], k - 1);
    }
  }

  /** The word characters of a text, in order. */
  ghost function WordCharacters(a: Alphabet, t: string): string {
    if t == "" then "" else (if a.isWord(t[0]) then [t[0]] else "") + WordCharacters(a, t[1..])
  }

  lemma {:induction false} AllWordCharacters(a: Alphabet, w: string, rest: string)
    requires forall i :: 0 <= i < |w| ==> a.isWord(w[i])
    ensures WordCharacters(a, w + rest) == w + WordCharacters(a, rest)
    decreases |w|
  {
    if w == "" {
      assert w + rest == rest;
    } else {
      assert (w + rest)[1..] == w[1..] + rest && w == [w[0]] + w[1..];
      AllWordCharacters(a, w[1..], rest);
    }
  }

  /** The words of a text contain, one after the other, exactly its word characters: none is missed. */
  lemma {:induction false} WordsMissNothing(a: Alphabet, t: string)
    ensures Join("", Words(a, t)) == WordCharacters(a, t)
    decreases |t|
  {
    if t != "" {
      if !a.isWord(t[0]) {
        WordsMissNothing(a, t[1..]);
      } else {
        var end := WordEnd(a, t, 1);
        var w, rest := t[..end], t[end..];
        assert t == w + rest;
        AllWordCharacters(a, w, rest);
        WordsMissNothing(a, rest);
        JoinFirst(w, Words(a, rest));
      }
    }
  }

  /** And they are the maximal runs: wherever a run of word characters has none beside it, it is a word. */
  lemma {:induction false} WordsAreMaximalRuns(a: Alphabet, gap: string, w: string, rest: string)
    requires forall i :: 0 <= i < |gap| ==> !a.isWord(gap[i])
    requires IsWordText(a, w) && (rest == "" || !a.isWord(rest[0]))
    ensures Words(a, gap + w + rest) == [w] + Words(a, rest)
    decreases |gap|
  {
    if gap == "" {
      assert gap + w + rest == w + rest;
      FirstWord(a, w, rest);
    } else {
      assert (gap + w + rest)[1..] == gap[1..] + w + rest;
      WordsAreMaximalRuns(a, gap[1..], w, rest);
    }
  }

  /** Joining words with blanks and looking for words again finds the same words. */
  lemma {:induction false} WordsOfJoin(a: Alphabet, words: seq<string>)
    requires !a.isWord(' ') && forall i :: 0 <= i < |words| ==> IsWordText(a, words[i])
    ensures Words(a, Join(" ", words)) == words
    decreases |words|
  {
    if words != [] {
      var w, t := words[0], Join(" ", words);
      var rest := if |words| == 1 then "" else " " + Join(" ", words[1..]);
      assert t == w + rest;
      FirstWord(a, w, rest);
      if |words| > 1 {
        assert rest[1..] == Join(" ", words[1..]);
        WordsOfJoin(a, words[1..]);
      }
      assert words == [w] + words[1..];
    }
  }

  lemma FirstWord(a: Alphabet, w: string, rest: string)
    requires IsWordText(a, w) && (rest == "" || !a.isWord(rest[0]))
    ensures Words(a, w + rest) == [w] + Words(a, rest)
  {
    var t := w + rest;
    var end := WordEnd(a, t, 1);
    assert forall i :: 0 <= i < |w| ==> t[i] == w[i];
    assert rest != "" ==> t[|w|] == rest[0];
    assert end == |w|;
    assert t[..end] == w && t[end..] == rest;
  }

  lemma {:induction false} JoinCharacters(words: seq<string>, i: nat)
    requires i < |Join(" ", words)|
    ensures || Join(" ", words)[i] == ' '
            || exists k, j :: 0 <= k < |words| && 0 <= j < |words[k]| && words[k][j] == Join(" ", words)[i]
    decreases |words|
  {
    var t := Join(" ", words);
    if i < |words[0]| {
      assert words[0][i] == t[i];
    } else if i > |words[0]| {
      var rest := words[1..];
      assert t[i] == Join(" ", rest)[i - |words[0]| - 1];
      JoinCharacters(rest, i - |words[0]| - 1);
      if t[i] != ' ' {
        var k, j :| 0 <= k < |rest| && 0 <= j < |rest[k]| && rest[k][j] == t[i];
        assert words[k + 1][j] == t[i];
      }
    }
  }

  /** In a joined list of lowered texts, the words are already lowered. */
  lemma LoweredStaysLowered(a: Alphabet, settled: char -> bool, words: seq<string>, w: string)
    requires Lowercases(a, settled)
    requires forall k, j :: 0 <= k < |words| && 0 <= j < |words[k]| ==> settled(words[k][j])
    requires w in Words(a, Join(" ", words))
    ensures a.lower(w) == w
  {
    var t := Join(" ", words);
    var n :| 0 <= n < |Words(a, t)| && Words(a, t)[n] == w;
    WordsAreWords(a, t, n);
    forall i | 0 <= i < |w| ensures settled(w[i]) {
      var at :| 0 <= at < |t| && t[at] == w[i];
      JoinCharacters(words, at);
    }
  }

  /** Tokenizing the normalized query gives the tokens of the query back - exactly when every
      lowered word still is a word. (Not for the Turkish capital I with a dot, for example: in lower
      case it gets a combining dot, which is not a word character.) */
  lemma TokenizeNormalForm(a: Alphabet, settled: char -> bool, q: string)
    requires Lowercases(a, settled)
    ensures var tokens := Tokenize(a, q);
            Tokenize(a, Join(" ", tokens)) == tokens <==> forall i :: 0 <= i < |tokens| ==> IsWordText(a, tokens[i])
  {
    var tokens := Tokenize(a, q);
    var again := Words(a, Join(" ", tokens));
    forall k, j | 0 <= k < |tokens| && 0 <= j < |tokens[k]| ensures settled(tokens[k][j]) {
      assert tokens[k] == a.lower(Words(a, q)[k]);
    }
    forall i | 0 <= i < |again| ensures a.lower(again[i]) == again[i] && IsWordText(a, again[i]) {
      LoweredStaysLowered(a, settled, tokens, again[i]);
      WordsAreWords(a, Join(" ", tokens), i);
    }
    assert LowerAll(a, again) == again;
    if forall i :: 0 <= i < |tokens| ==> IsWordText(a, tokens[i]) {
      WordsOfJoin(a, tokens);
    }
  }

  // ------------------------------------------------------------------- where it fails

  const DOTTED_CAPITAL_I: string := "\U{0130}"
  const COMBINING_DOT: string := "\U{0307}"

  /** Lower case for the Latin letters and the capital I with a dot, which becomes two characters. */
  function LatinLowerChar(c: char): string {
    if 'A' <= c <= 'Z' then [(c as int + 32) as char]
    else if c == '\U{0130}' then "i" + COMBINING_DOT
    else [c]
  }

  /** Every character by itself. */
  function EachChar(lower: char -> string, s: string): string {
    if s == "" then "" else EachChar(lower, s[..|s| - 1]) + lower(s[|s| - 1])
  }

  function LatinLower(s: string): string {
    EachChar(LatinLowerChar, s)
  }

  /** The word characters among these; the combining dot (U+0307) is none. */
  predicate LatinWord(c: char) {
    'a' <= c <= 'z' || 'A' <= c <= 'Z' || '0' <= c <= '9' || c == '_' || c == '\'' || c == '\U{0130}'
  }

  predicate LatinSettled(c: char) {
    LatinLowerChar(c) == [c]
  }

  const LATIN := Alphabet(LatinWord, LatinLower)

  lemma {:induction false} EachCharSettles(lower: char -> string, settled: char -> bool, s: string)
    requires forall c :: AllSettled(settled, lower(c))
    ensures AllSettled(settled, EachChar(lower, s))
  {
    if s != "" {
      EachCharSettles(lower, settled, s[..|s| - 1]);
      assert AllSettled(settled, lower(s[|s| - 1]));
    }
  }

  lemma {:induction false} EachCharKeeps(lower: char -> string, settled: char -> bool, s: string)
    requires (forall c :: settled(c) ==> lower(c) == [c]) && AllSettled(settled, s)
    ensures EachChar(lower, s) == s
  {
    if s != "" {
      EachCharKeeps(lower, settled, s[..|s| - 1]);
      assert settled(s[|s| - 1]);
      assert s == s[..|s| - 1] + [s[|s| - 1]];
    }
  }

  lemma LatinCharSettles(c: char)
    ensures AllSettled(LatinSettled, LatinLowerChar(c))
  {
  }

  lemma LatinLowercases()
    ensures Lowercases(LATIN, LatinSettled)
  {
    forall c ensures AllSettled(LatinSettled, LatinLowerChar(c)) {
      LatinCharSettles(c);
    }
    forall s: string ensures AllSettled(LatinSettled, LATIN.lower(s)) {
      EachCharSettles(LatinLowerChar, LatinSettled, s);
    }
    forall s: string | AllSettled(LatinSettled, s) ensures LATIN.lower(s) == s {
      EachCharKeeps(LatinLowerChar, LatinSettled, s);
    }
  }

  lemma NoWordInDot()
    ensures Words(LATIN, COMBINING_DOT) == []
  {
    assert COMBINING_DOT[1..] == "";
  }

  lemma LowerOne(c: char)
    ensures LatinLower([c]) == LatinLowerChar(c)
  {
    EachOfOne(LatinLowerChar, c);
  }

  lemma EachOfOne(lower: char -> string, c: char)
    ensures EachChar(lower, [c]) == lower(c)
  {
    assert [c][..0] == "" && EachChar(lower, "") == "";
    assert [c][|[c]| - 1] == c;
    assert EachChar(lower, [c]) == "" + lower(c);
  }

  lemma LowerAllMore(a: Alphabet, w: string, words: seq<string>)
    ensures LowerAll(a, [w] + words) == [a.lower(w)] + LowerAll(a, words)
  {
  }

  lemma OneLetter(c: char, rest: string)
    requires LatinWord(c) && (rest == "" || !LatinWord(rest[0]))
    ensures Tokenize(LATIN, [c] + rest) == [LatinLowerChar(c)] + Tokenize(LATIN, rest)
  {
    OneWord([c], rest);
    LowerAllMore(LATIN, [c], Words(LATIN, rest));
    LowerOne(c);
  }

  lemma DottedToken()
    ensures Tokenize(LATIN, DOTTED_CAPITAL_I) == ["i" + COMBINING_DOT]
  {
    OneLetter(DOTTED_CAPITAL_I[0], "");
    assert [DOTTED_CAPITAL_I[0]] + "" == DOTTED_CAPITAL_I;
    assert LatinLowerChar(DOTTED_CAPITAL_I[0]) == "i" + COMBINING_DOT;
    assert Words(LATIN, "") == [];
  }

  lemma DotIsLost()
    ensures Tokenize(LATIN, "i" + COMBINING_DOT) == ["i"]
  {
    NoWordInDot();
    OneLetter('i', COMBINING_DOT);
    assert LatinLowerChar('i') == "i";
  }

  /** The query of one capital I with a dot: its token is not a word, and tokenizing again loses the dot. */
  lemma DottedCapitalIFails()
    ensures Lowercases(LATIN, LatinSettled)
    ensures Tokenize(LATIN, DOTTED_CAPITAL_I) == ["i" + COMBINING_DOT]
    ensures Tokenize(LATIN, Join(" ", Tokenize(LATIN, DOTTED_CAPITAL_I))) == ["i"]
  {
    LatinLowercases();
    DottedToken();
    DotIsLost();
  }

  lemma OneWord(w: string, rest: string)
    requires IsWordText(LATIN, w) && (rest == "" || !LatinWord(rest[0]))
    ensures Words(LATIN, w + rest) == [w] + Words(LATIN, rest)
  {
    FirstWord(LATIN, w, rest);
  }
}
