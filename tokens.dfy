/** Token kinds and the keyword counter (`getKeywordCount`). The tokens are
    those libclang produces for the whole main file; only their kinds matter
    here. */
module Tokens {

  /** libclang's CXTokenKind. A value outside the five enumerators, which the
      C enum type admits, is kept with its code. */
  datatype TokenKind =
    | Punctuation
    | Keyword
    | Identifier
    | Literal
    | Comment
    | Unrecognized(code: int)

  /** `_getTokenKindSpelling`: the name of each kind, "Unknown" for anything
      else. The spelling names Keyword exactly when the kind is Keyword. */
  function TokenKindSpelling(kind: TokenKind): (s: string)
    ensures s == "Keyword" <==> kind == Keyword
    ensures s == "Unknown" <==> kind.Unrecognized?
  {
    match kind
    case Punctuation => "Punctuation"
    case Keyword => "Keyword"
    case Identifier => "Identifier"
    case Literal => "Literal"
    case Comment => "Comment"
    case Unrecognized(_) => "Unknown"
  }

  /** Distinct enumerators get distinct spellings. */
  lemma TokenKindSpellingInjective(a: TokenKind, b: TokenKind)
    requires !a.Unrecognized? && !b.Unrecognized?
    requires TokenKindSpelling(a) == TokenKindSpelling(b)
    ensures a == b
  {
    match a
    case Punctuation => assert TokenKindSpelling(b)[0] == 'P';
    case Keyword =>
    case Identifier => assert TokenKindSpelling(b)[0] == 'I';
    case Literal => assert TokenKindSpelling(b)[0] == 'L';
    case Comment => assert TokenKindSpelling(b)[0] == 'C';
  }

  /** The number of Keyword tokens in a token sequence. */
  function KeywordCount(tokens: seq<TokenKind>): nat
  {
    if tokens == [] then 0
    else KeywordCount(tokens[..|tokens| - 1]) + (if tokens[|tokens| - 1] == Keyword then 1 else 0)
  }

  /** `getKeywordCount`: one pass over the token buffer, adding one for each
      token whose kind is Keyword. The buffer length is an unsigned count, so
      the result never exceeds it and never wraps. */
  method GetKeywordCount(tokens: seq<TokenKind>) returns (numKeywords: nat)
    ensures numKeywords == KeywordCount(tokens)
  {
    numKeywords := 0;
    for i := 0 to |tokens|
      invariant numKeywords == KeywordCount(tokens[..i])
    {
      assert tokens[..i + 1][..i] == tokens[..i];
      if tokens[i] == Keyword {
        numKeywords := numKeywords + 1;
      }
    }
    assert tokens[..|tokens|] == tokens;
  }

  /** The count is the multiplicity of Keyword among the tokens, so it
      depends neither on the order of the tokens nor on anything but how many
      of them are keywords. */
  lemma {:induction false} KeywordCountIsMultiplicity(tokens: seq<TokenKind>)
    ensures KeywordCount(tokens) == multiset(tokens)[Keyword]
    decreases |tokens|
  {
    if tokens != [] {
      var n := |tokens|;
      assert tokens == tokens[..n - 1] + [tokens[n - 1]];
      KeywordCountIsMultiplicity(tokens[..n - 1]);
    }
  }

  /** Reordering the tokens leaves the count unchanged. */
  lemma KeywordCountPermutation(a: seq<TokenKind>, b: seq<TokenKind>)
    requires multiset(a) == multiset(b)
    ensures KeywordCount(a) == KeywordCount(b)
  {
    KeywordCountIsMultiplicity(a);
    KeywordCountIsMultiplicity(b);
  }

  /** Changing tokens without changing which positions hold keywords leaves
      the count unchanged. */
  lemma {:induction false} KeywordCountSameKeywords(a: seq<TokenKind>, b: seq<TokenKind>)
    requires |a| == |b|
    requires forall i :: 0 <= i < |a| ==> (a[i] == Keyword <==> b[i] == Keyword)
    ensures KeywordCount(a) == KeywordCount(b)
    decreases |a|
  {
    if a != [] {
      var n := |a|;
      KeywordCountSameKeywords(a[..n - 1], b[..n - 1]);
    }
  }

  /** The count is at most the number of tokens, with equality exactly when
      every token is a keyword. */
  lemma {:induction false} KeywordCountBound(tokens: seq<TokenKind>)
    ensures KeywordCount(tokens) <= |tokens|
    ensures KeywordCount(tokens) == |tokens| <==> forall i :: 0 <= i < |tokens| ==> tokens[i] == Keyword
    decreases |tokens|
  {
    if tokens != [] {
      var n := |tokens|;
      KeywordCountBound(tokens[..n - 1]);
      if KeywordCount(tokens) == n {
        forall i | 0 <= i < n ensures tokens[i] == Keyword {
          if i < n - 1 { assert tokens[..n - 1][i] == tokens[i]; }
        }
      }
    }
  }
}
