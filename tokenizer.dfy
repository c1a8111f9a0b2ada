// tokenizer/tokenizer.go: the default tokenizer the indexer and the
// searcher install, which splits text on single spaces.
module Tokenizer {
  import opened Types
  import opened GoStrings

  /** DefaultTokenizer.GetTokens(text): strings.Split(text, " "). */
  function GetTokens(text: Bytes): (tokens: seq<Bytes>)
    ensures |tokens| >= 1
    ensures forall i :: 0 <= i < |tokens| ==> Space !in tokens[i]
  {
    Split(text, Space)
  }

  /** Joining the tokens with single spaces gives the text back. */
  lemma JoinTokens(text: Bytes)
    ensures Join(GetTokens(text), [Space]) == text
  {
    JoinSplit(text, Space);
  }

  /** There is one token more than the text has spaces; "" yields [""]. */
  lemma TokenCount(text: Bytes)
    ensures |GetTokens(text)| == Count(text, Space) + 1
    ensures text == [] ==> GetTokens(text) == [[]]
  {
    SplitCount(text, Space);
  }

  /** Tokenizing space-free words joined by spaces gives the words back. */
  lemma TokensOfJoin(words: seq<Bytes>)
    requires |words| >= 1 && forall i :: 0 <= i < |words| ==> Space !in words[i]
    ensures GetTokens(Join(words, [Space])) == words
  {
    SplitJoin(words, Space);
  }
}
