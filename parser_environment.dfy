/** The keyword registry that the lexer consults to reclassify identifiers. */
module Environment {

  /** A case-sensitive set of keywords, filled in before lexing starts. */
  class ParserEnvironment {
    var keywords: set<string>

    constructor ()
      ensures keywords == {}
    {
      keywords := {};
    }

    /** Enumerates the registered keywords: exactly the words CheckKeyword accepts. */
    function Keywords(): (r: set<string>)
      reads this
      ensures forall w :: w in r <==> CheckKeyword(w)
    {
      keywords
    }

    /** Adds every word of `words` not already present; earlier keywords stay. */
    method AddKeywords(words: seq<string>)
      modifies this
      ensures keywords == old(keywords) + set w | w in words
      ensures forall w :: w in words ==> CheckKeyword(w)
      ensures (forall w :: w in words ==> w in old(keywords)) ==> keywords == old(keywords)
    {
      for i := 0 to |words|
        invariant keywords == old(keywords) + set j | 0 <= j < i :: words[j]
      {
        var keyword := words[i];
        if keyword !in keywords {
          keywords := keywords + {keyword};
        }
      }
      assert (set j | 0 <= j < |words| :: words[j]) == set w | w in words;
    }

    /** Exact, case-sensitive membership; never changes the registry. */
    function CheckKeyword(word: string): (r: bool)
      reads this
      ensures r <==> word in keywords
    {
      word in keywords
    }
  }
}
