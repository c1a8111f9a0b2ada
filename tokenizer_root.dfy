// tokenizer.go: the package-root copy of the default tokenizer.
module RootTokenizer {
  import opened Types
  import opened GoStrings
  import Tokenizer

  /** DefaultTokenizer.GetTokens(text) of package xs. */
  function GetTokens(text: Bytes): (tokens: seq<Bytes>)
    ensures |tokens| >= 1
    ensures forall i :: 0 <= i < |tokens| ==> Space !in tokens[i]
  {
    Split(text, Space)
  }

  /** Joining the tokens with single spaces gives the text back. */
  lemma JoinTokens(text: Bytes)
    ensures Join(GetTokens(text), [Space]) == text
  {
    JoinSplit(text, Space);
  }

  /** The two copies of the tokenizer agree on every text. */
  lemma SameAsPackageTokenizer(text: Bytes)
    ensures GetTokens(text) == Tokenizer.GetTokens(text)
  {
  }
}
