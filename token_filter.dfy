/** Step 2 of the gloss pipeline: lower-case every token and drop stopwords
    and punctuation (backend/app.py, the comprehension `filtered_tokens`). */
module TokenFilter {
  import opened Strings

  /** Python's `string.punctuation`. */
  const Punctuation: string := "!\"#$%&'()*+,-./:;<=>?@[\\]^_`{|}~"

  /** The two conditions of the comprehension: the LOWERED token is not a
      stopword, and the RAW token is not a substring of `Punctuation`. */
  predicate Keep(w: string, stopWords: set<string>)
  {
    Lower(w) !in stopWords && !IsSubstring(w, Punctuation)
  }

  /** What a surviving token looks like. */
  predicate IsFiltered(w: string, stopWords: set<string>)
  {
    IsLowercase(w) && w !in stopWords && !IsSubstring(w, Punctuation)
  }

  function FilterTokens(tokens: seq<string>, stopWords: set<string>): (r: seq<string>)
    ensures |r| <= |tokens|
    ensures forall j :: 0 <= j < |r| ==> IsFiltered(r[j], stopWords)
  {
    if tokens == [] then []
    else
      var w := tokens[0];
      var rest := FilterTokens(tokens[1..], stopWords);
      if Keep(w, stopWords) then
        LowerProperties(w);
        LoweredPunctuation(w);
        [Lower(w)] + rest
      else rest
  }

  lemma PunctuationHasNoLetters()
    ensures forall c :: c in Punctuation ==> !IsUpperChar(c) && !IsLowerChar(c)
  {
    forall i | 0 <= i < |Punctuation|
      ensures !IsUpperChar(Punctuation[i]) && !IsLowerChar(Punctuation[i])
    {
    }
  }

  /** Lowering cannot turn a token into a substring of `Punctuation`: a
      lowered token that is one was never changed by lowering. */
  lemma LoweredPunctuation(w: string)
    ensures IsSubstring(Lower(w), Punctuation) ==> Lower(w) == w
  {
    if IsSubstring(Lower(w), Punctuation) {
      SubstringChars(Lower(w), Punctuation);
      PunctuationHasNoLetters();
      forall k | 0 <= k < |w| ensures Lower(w)[k] == w[k] {
        assert Lower(w)[k] in Punctuation;
      }
    }
  }

  /** A token that contains a letter is never a substring of `Punctuation`. */
  lemma LetterIsNotPunctuation(w: string, k: nat)
    requires k < |w| && (IsLowerChar(w[k]) || IsUpperChar(w[k]))
    ensures !IsSubstring(w, Punctuation)
  {
    if IsSubstring(w, Punctuation) {
      SubstringChars(w, Punctuation);
      PunctuationHasNoLetters();
    }
  }

  /** The punctuation test is Python's substring test, not a per-character
      test: the empty token and runs that occur in `Punctuation` ("!", "()")
      are dropped, while "..." (no two dots are adjacent there) is kept. */
  lemma PunctuationIsSubstringTest()
    ensures IsSubstring("", Punctuation) && IsSubstring("!", Punctuation) && IsSubstring("()", Punctuation)
    ensures !IsSubstring("...", Punctuation)
  {
    assert OccursAt("", Punctuation, 0);
    assert OccursAt("!", Punctuation, 0);
    assert Punctuation[7] == '(' && Punctuation[8] == ')';
    assert Punctuation[7..9] == "()";
    assert OccursAt("()", Punctuation, 7);
    assert forall j :: 0 <= j < |Punctuation| - 1 ==> !(Punctuation[j] == '.' && Punctuation[j + 1] == '.');
    forall i | 0 <= i <= |Punctuation| ensures !OccursAt("...", Punctuation, i) {
      if i + 3 <= |Punctuation| {
        assert Punctuation[i..i + 3][0] == Punctuation[i] && Punctuation[i..i + 3][1] == Punctuation[i + 1];
      }
    }
  }

  /** Filtering distributes over concatenation: survivors keep their input
      order and each token is judged on its own. */
  lemma {:induction false} FilterAppend(a: seq<string>, b: seq<string>, stopWords: set<string>)
    ensures FilterTokens(a + b, stopWords) == FilterTokens(a, stopWords) + FilterTokens(b, stopWords)
  {
    if a != [] {
      assert (a + b)[1..] == a[1..] + b;
      FilterAppend(a[1..], b, stopWords);
    } else {
      assert a + b == b;
    }
  }

  /** `x` survives exactly when some input token passes both tests and
      lowers to `x`. */
  lemma {:induction false} FilterMembership(tokens: seq<string>, stopWords: set<string>, x: string)
    ensures x in FilterTokens(tokens, stopWords) <==>
            exists i :: 0 <= i < |tokens| && Keep(tokens[i], stopWords) && Lower(tokens[i]) == x
  {
    if tokens != [] {
      FilterMembership(tokens[1..], stopWords, x);
      if x in FilterTokens(tokens[1..], stopWords) {
        var i :| 0 <= i < |tokens[1..]| && Keep(tokens[1..][i], stopWords) && Lower(tokens[1..][i]) == x;
        assert tokens[i + 1] == tokens[1..][i];
      }
      if exists i :: 0 <= i < |tokens| && Keep(tokens[i], stopWords) && Lower(tokens[i]) == x {
        var i :| 0 <= i < |tokens| && Keep(tokens[i], stopWords) && Lower(tokens[i]) == x;
        if i > 0 {
          assert tokens[1..][i - 1] == tokens[i];
        }
      }
    }
  }

  /** A token that is already filtered passes the filter unchanged. */
  lemma FilteredIsKept(w: string, stopWords: set<string>)
    requires IsFiltered(w, stopWords)
    ensures Keep(w, stopWords) && Lower(w) == w
  {
    LowerProperties(w);
  }

  /** Filtering its own output changes nothing. */
  lemma {:induction false} FilterIdempotent(tokens: seq<string>, stopWords: set<string>)
    ensures FilterTokens(FilterTokens(tokens, stopWords), stopWords) == FilterTokens(tokens, stopWords)
  {
    var r := FilterTokens(tokens, stopWords);
    FilterFixesFiltered(r, stopWords);
  }

  lemma {:induction false} FilterFixesFiltered(ws: seq<string>, stopWords: set<string>)
    requires forall j :: 0 <= j < |ws| ==> IsFiltered(ws[j], stopWords)
    ensures FilterTokens(ws, stopWords) == ws
  {
    if ws != [] {
      FilteredIsKept(ws[0], stopWords);
      FilterFixesFiltered(ws[1..], stopWords);
      assert [ws[0]] + ws[1..] == ws;
    }
  }
}
