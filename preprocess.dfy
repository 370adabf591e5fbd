/** `TextPreprocessor.process`: lowercase, replace punctuation by spaces,
    tokenize, drop stopwords and one-character tokens, stem what is left. */
module Preprocess {
  import opened PyText

  /** A `TextPreprocessor`: its stopword set and the two NLTK routines it calls.
      `word_tokenize` and `PorterStemmer.stem` are foreign code, so they are
      carried as arbitrary functions about which nothing is assumed. */
  datatype Preprocessor = Preprocessor(
    stopWords: set<string>,
    tokenize: string -> seq<string>,
    stem: string -> string)

  /** The comprehension's filter: `word not in self.stop_words and len(word) > 1`. */
  predicate Keeps(p: Preprocessor, w: string) {
    w !in p.stopWords && |w| > 1
  }

  /** The text handed to the tokenizer: lowercased, with every punctuation
      character replaced by one space. */
  function Normalize(text: string): (r: string)
    ensures |r| == |text|
    ensures forall i :: 0 <= i < |r| ==> !IsPunctuation(r[i]) && !('A' <= r[i] <= 'Z')
  {
    StripPunctuation(AsciiLower(text))
  }

  /** Position by position, normalization turns a punctuation character into
      one space and lowercases every other character. */
  lemma NormalizeAt(text: string, i: nat)
    requires i < |text|
    ensures IsPunctuation(text[i]) ==> Normalize(text)[i] == ' '
    ensures !IsPunctuation(text[i]) ==> Normalize(text)[i] == LowerChar(text[i])
  {
  }

  /** The list comprehension `[stem(word) for word in tokens if Keeps(word)]`,
      one token at a time in order. */
  function CleanTokens(p: Preprocessor, tokens: seq<string>): (r: seq<string>)
    ensures |r| <= |tokens|
  {
    if tokens == [] then []
    else (if Keeps(p, tokens[0]) then [p.stem(tokens[0])] else []) + CleanTokens(p, tokens[1..])
  }

  /** `process(text)`: the empty string yields no tokens without calling the tokenizer. */
  function Process(p: Preprocessor, text: string): (r: seq<string>)
    ensures text == [] ==> r == []
  {
    if text == [] then [] else CleanTokens(p, p.tokenize(Normalize(text)))
  }

  /** Reference definition of the filter: the tokens that are kept, in order. */
  function KeptWords(p: Preprocessor, tokens: seq<string>): (r: seq<string>)
    ensures forall w :: w in r ==> w in tokens && Keeps(p, w)
  {
    if tokens == [] then []
    else if Keeps(p, tokens[0]) then [tokens[0]] + KeptWords(p, tokens[1..])
    else KeptWords(p, tokens[1..])
  }

  /** Reference definition of the map: `stem` applied to each word. */
  function StemAll(p: Preprocessor, words: seq<string>): (r: seq<string>)
    ensures |r| == |words|
    ensures forall i :: 0 <= i < |words| ==> r[i] == p.stem(words[i])
  {
    seq(|words|, i requires 0 <= i < |words| => p.stem(words[i]))
  }

  /** The positions of the kept tokens, in increasing order. */
  function KeptIndices(p: Preprocessor, tokens: seq<string>): (ix: seq<nat>)
    ensures forall j :: 0 <= j < |ix| ==> ix[j] < |tokens|
  {
    if tokens == [] then []
    else
      KeptIndices(p, tokens[..|tokens| - 1])
      + (if Keeps(p, tokens[|tokens| - 1]) then [|tokens| - 1] else [])
  }

  /** The comprehension is a filter followed by a map. */
  lemma {:induction false} CleanTokensIsStemOfKept(p: Preprocessor, tokens: seq<string>)
    ensures CleanTokens(p, tokens) == StemAll(p, KeptWords(p, tokens))
  {
    if tokens != [] {
      CleanTokensIsStemOfKept(p, tokens[1..]);
    }
  }

  /** Cleaning distributes over concatenation of token lists. */
  lemma {:induction false} CleanTokensAppend(p: Preprocessor, a: seq<string>, b: seq<string>)
    ensures CleanTokens(p, a + b) == CleanTokens(p, a) + CleanTokens(p, b)
  {
    if a != [] {
      assert (a + b)[1..] == a[1..] + b;
      CleanTokensAppend(p, a[1..], b);
    } else {
      assert a + b == b;
    }
  }

  /** A stopword or a token of length at most one contributes nothing to the
      output, wherever it occurs. */
  lemma CleanTokensSkipsRejected(p: Preprocessor, a: seq<string>, w: string, b: seq<string>)
    requires !Keeps(p, w)
    ensures CleanTokens(p, a + [w] + b) == CleanTokens(p, a + b)
  {
    CleanTokensAppend(p, a + [w], b);
    CleanTokensAppend(p, a, [w]);
    CleanTokensAppend(p, a, b);
    assert CleanTokens(p, [w]) == [] by { assert [w][1..] == []; }
  }

  /** The kept positions are strictly increasing, and a position is kept if
      and only if its token passes the filter. */
  lemma {:induction false} KeptIndicesExact(p: Preprocessor, tokens: seq<string>)
    ensures var ix := KeptIndices(p, tokens);
      && (forall j, k :: 0 <= j < k < |ix| ==> ix[j] < ix[k])
      && (forall i :: 0 <= i < |tokens| ==> (i in ix <==> Keeps(p, tokens[i])))
  {
    if tokens != [] {
      var n := |tokens| - 1;
      var init := tokens[..n];
      KeptIndicesExact(p, init);
      var ix0 := KeptIndices(p, init);
      var ix := KeptIndices(p, tokens);
      assert ix[..|ix0|] == ix0;
      forall i | 0 <= i < n ensures i in ix <==> Keeps(p, tokens[i]) {
        assert tokens[i] == init[i];
        assert i in ix <==> i in ix0;
      }
    }
  }

  /** Order preservation: the output is the stems of the tokens at the kept
      positions, in the order of those positions. */
  lemma {:induction false} CleanTokensOrder(p: Preprocessor, tokens: seq<string>)
    ensures var r, ix := CleanTokens(p, tokens), KeptIndices(p, tokens);
      && |r| == |ix|
      && (forall j :: 0 <= j < |ix| ==> r[j] == p.stem(tokens[ix[j]]))
  {
    if tokens != [] {
      var n := |tokens| - 1;
      var init, last := tokens[..n], tokens[n];
      CleanTokensOrder(p, init);
      assert tokens == init + [last];
      CleanTokensAppend(p, init, [last]);
      assert [last][1..] == [];
      var ix0 := KeptIndices(p, init);
      forall j | 0 <= j < |ix0| ensures tokens[ix0[j]] == init[ix0[j]] {
      }
    }
  }

  /** `process` on non-empty text, in one statement: its output is the stems
      of the kept tokens of the normalized text, in order; output element `j`
      is the stem of the token at the `j`-th position that passes the filter. */
  lemma ProcessOrder(p: Preprocessor, text: string)
    requires text != []
    ensures var tokens, r := p.tokenize(Normalize(text)), Process(p, text);
      var ix := KeptIndices(p, tokens);
      && r == StemAll(p, KeptWords(p, tokens))
      && |r| <= |tokens|
      && |r| == |ix|
      && (forall j :: 0 <= j < |ix| ==> r[j] == p.stem(tokens[ix[j]]))
      && (forall i :: 0 <= i < |tokens| ==> (i in ix <==> Keeps(p, tokens[i])))
  {
    var tokens := p.tokenize(Normalize(text));
    CleanTokensIsStemOfKept(p, tokens);
    CleanTokensOrder(p, tokens);
    KeptIndicesExact(p, tokens);
  }
}
