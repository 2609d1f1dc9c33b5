/** The English-to-ISL gloss pipeline and its request check
    (backend/app.py, `english_to_isl` and `convert_to_isl`). */
module IslService {
  import opened Wrappers
  import opened Strings
  import opened TokenFilter
  import opened SovReorder

  /** The linguistic resources the pipeline is given: the stopword set, and
      the tokenizer, lemmatizer and tagger of the language toolkit, whose
      internals are not modelled. The tagger sees the whole word sequence
      (it tags in context) and answers with the tag of the word at a given
      position, so it yields exactly one (word, tag) pair per word. */
  datatype Resources = Resources(
    stopWords: set<string>,
    tokenize: string -> seq<string>,
    lemmatize: string -> string,
    tagAt: (seq<string>, nat) -> string)

  /** Step 3: one lemma per filtered word, in order. */
  function LemmatizeAll(words: seq<string>, lemmatize: string -> string): (r: seq<string>)
    ensures |r| == |words|
    ensures forall i :: 0 <= i < |words| ==> r[i] == lemmatize(words[i])
  {
    seq(|words|, i requires 0 <= i < |words| => lemmatize(words[i]))
  }

  /** Step 4's tagger call: pairs each word with its tag and keeps the words
      as they are. */
  function PosTag(words: seq<string>, tagAt: (seq<string>, nat) -> string): (r: seq<Tagged>)
    ensures |r| == |words| && Words(r) == words
    ensures forall i :: 0 <= i < |r| ==> r[i].tag == tagAt(words, i)
  {
    var r := seq(|words|, i requires 0 <= i < |words| => Tagged(words[i], tagAt(words, i)));
    assert Words(r) == words by {
      assert forall i :: 0 <= i < |r| ==> Words(r)[i] == words[i];
    }
    r
  }

  /** The words entering the tagger for `text`. */
  function Lemmas(text: string, res: Resources): seq<string>
  {
    LemmatizeAll(FilterTokens(res.tokenize(text), res.stopWords), res.lemmatize)
  }

  /** The tagged words entering the reorderer for `text`. */
  function TaggedWords(text: string, res: Resources): seq<Tagged>
  {
    PosTag(Lemmas(text, res), res.tagAt)
  }

  /** `english_to_isl(text)` as a value. */
  function IslGloss(text: string, res: Resources): string
  {
    Join(Concat(Sort(TaggedWords(text, res))))
  }

  /** The pipeline: tokenize, filter, lemmatize, tag, reorder, join. */
  method EnglishToIsl(text: string, res: Resources) returns (gloss: string)
    ensures gloss == IslGloss(text, res)
    ensures FilterTokens(res.tokenize(text), res.stopWords) == [] ==> gloss == ""
  {
    var tokens := res.tokenize(text);
    var filtered := FilterTokens(tokens, res.stopWords);
    var lemmas := LemmatizeAll(filtered, res.lemmatize);
    var tagged := PosTag(lemmas, res.tagAt);
    var buckets := ReorderSov(tagged);
    gloss := Join(Concat(buckets));
  }

  /** When every token is filtered away the gloss is empty; otherwise it is
      the bucket words separated by exactly one space each (splitting on a
      single space gives them back, provided no lemma holds a space), and
      those words are a permutation of the lemmas. */
  lemma GlossShape(text: string, res: Resources)
    ensures FilterTokens(res.tokenize(text), res.stopWords) == [] ==> IslGloss(text, res) == ""
    ensures var words := Concat(Sort(TaggedWords(text, res)));
            && multiset(words) == multiset(Lemmas(text, res))
            && |words| == |FilterTokens(res.tokenize(text), res.stopWords)|
            && (words != [] && (forall i :: 0 <= i < |words| ==> ' ' !in words[i]) ==>
                  Split(IslGloss(text, res)) == words)
  {
    var tagged := TaggedWords(text, res);
    var words := Concat(Sort(tagged));
    SortPermutation(tagged);
    if words != [] && (forall i :: 0 <= i < |words| ==> ' ' !in words[i]) {
      SplitJoin(words);
    }
  }

  /** The response of the `/convert_to_isl` endpoint: the gloss with the
      original text, or an error message with the HTTP status. */
  datatype Response = Converted(originalText: string, islText: string) | Failed(error: string, status: int)

  const NoTextProvided: string := "No text provided"

  /** `convert_to_isl` with `text = data.get('text', '')`: an absent text is
      treated like the empty text. */
  function ConvertToIsl(text: Option<string>, res: Resources): (r: Response)
    ensures r.Failed? <==> text == None || text == Some("")
    ensures r.Failed? ==> r == Failed(NoTextProvided, 500)
    ensures r.Converted? ==> r.originalText == text.value && r.islText == IslGloss(text.value, res)
  {
    var t := match text case None => "" case Some(s) => s;
    if t == "" then Failed(NoTextProvided, 500)
    else Converted(t, IslGloss(t, res))
  }

  /** The text check comes before the pipeline: on an empty or absent text
      the response does not depend on the resources at all. */
  lemma NoTextIgnoresPipeline(text: Option<string>, res1: Resources, res2: Resources)
    requires text == None || text == Some("")
    ensures ConvertToIsl(text, res1) == ConvertToIsl(text, res2)
  {
  }

  /** "The cat chased the mouse": both articles are stopwords, the tagger
      marks noun, verb, noun, and the gloss is "cat mouse chased". */
  lemma ScenarioCatMouse(res: Resources)
    requires res.tokenize("The cat chased the mouse") == ["The", "cat", "chased", "the", "mouse"]
    requires "the" in res.stopWords
    requires "cat" !in res.stopWords && "chased" !in res.stopWords && "mouse" !in res.stopWords
    requires res.lemmatize("cat") == "cat" && res.lemmatize("chased") == "chased"
    requires res.lemmatize("mouse") == "mouse"
    requires res.tagAt(["cat", "chased", "mouse"], 0) == "NN"
    requires res.tagAt(["cat", "chased", "mouse"], 1) == "VBD"
    requires res.tagAt(["cat", "chased", "mouse"], 2) == "NN"
    ensures IslGloss("The cat chased the mouse", res) == "cat mouse chased"
  {
    var tagged := [Tagged("cat", "NN"), Tagged("chased", "VBD"), Tagged("mouse", "NN")];
    CatMouseTagged(res);
    CatMouseSort();
    GlossFromWords("The cat chased the mouse", res, tagged, ["cat", "mouse", "chased"]);
    assert Join(["cat", "mouse", "chased"]) == "cat mouse chased" by {
      assert Join(["chased"]) == "chased";
      assert Join(["mouse", "chased"]) == "mouse chased";
    }
  }

  lemma GlossFromWords(text: string, res: Resources, tagged: seq<Tagged>, words: seq<string>)
    requires TaggedWords(text, res) == tagged
    requires Concat(Sort(tagged)) == words
    ensures IslGloss(text, res) == Join(words)
  {
  }

  lemma CatMouseTagged(res: Resources)
    requires res.tokenize("The cat chased the mouse") == ["The", "cat", "chased", "the", "mouse"]
    requires "the" in res.stopWords
    requires "cat" !in res.stopWords && "chased" !in res.stopWords && "mouse" !in res.stopWords
    requires res.lemmatize("cat") == "cat" && res.lemmatize("chased") == "chased"
    requires res.lemmatize("mouse") == "mouse"
    requires res.tagAt(["cat", "chased", "mouse"], 0) == "NN"
    requires res.tagAt(["cat", "chased", "mouse"], 1) == "VBD"
    requires res.tagAt(["cat", "chased", "mouse"], 2) == "NN"
    ensures TaggedWords("The cat chased the mouse", res)
            == [Tagged("cat", "NN"), Tagged("chased", "VBD"), Tagged("mouse", "NN")]
  {
    CatMouseFilter(res.stopWords);
    assert Lemmas("The cat chased the mouse", res) == ["cat", "chased", "mouse"];
  }

  lemma CatMouseFilter(stop: set<string>)
    requires "the" in stop
    requires "cat" !in stop && "chased" !in stop && "mouse" !in stop
    ensures FilterTokens(["The", "cat", "chased", "the", "mouse"], stop) == ["cat", "chased", "mouse"]
  {
    assert Lower("The") == "the";
    assert Lower("the") == "the";
    assert Lower("cat") == "cat";
    assert Lower("chased") == "chased";
    assert Lower("mouse") == "mouse";
    LetterIsNotPunctuation("cat", 0);
    LetterIsNotPunctuation("chased", 0);
    LetterIsNotPunctuation("mouse", 0);
    assert !Keep("The", stop) && !Keep("the", stop);
    assert Keep("cat", stop) && Keep("chased", stop) && Keep("mouse", stop);
    assert FilterTokens(["mouse"], stop) == ["mouse"];
    assert FilterTokens(["the", "mouse"], stop) == ["mouse"];
    assert FilterTokens(["chased", "the", "mouse"], stop) == ["chased", "mouse"];
    assert FilterTokens(["cat", "chased", "the", "mouse"], stop) == ["cat", "chased", "mouse"];
  }

  lemma CatMouseSort()
    ensures Concat(Sort([Tagged("cat", "NN"), Tagged("chased", "VBD"), Tagged("mouse", "NN")]))
            == ["cat", "mouse", "chased"]
  {
    var tagged := [Tagged("cat", "NN"), Tagged("chased", "VBD"), Tagged("mouse", "NN")];
    assert StartsWith("NN", "NN");
    assert !StartsWith("VBD", "NN") && StartsWith("VBD", "VB");
    assert tagged[..2][..1] == tagged[..1];
    assert tagged[..2] == tagged[..|tagged| - 1];
    assert Sort(tagged[..1]) == Buckets(["cat"], [], [], []);
    assert Sort(tagged[..2]) == Buckets(["cat"], [], ["chased"], []);
    assert Sort(tagged) == Buckets(["cat"], ["mouse"], ["chased"], []);
  }

  /** "Run!": the exclamation mark is punctuation, the one remaining word is
      a verb, and the gloss is its lemma. */
  lemma ScenarioRun(res: Resources)
    requires res.tokenize("Run!") == ["Run", "!"]
    requires "run" !in res.stopWords
    requires res.lemmatize("run") == "run"
    requires StartsWith(res.tagAt(["run"], 0), "VB")
    ensures IslGloss("Run!", res) == "run"
  {
    var tokens := ["Run", "!"];
    assert Lower("Run") == "run";
    LetterIsNotPunctuation("Run", 0);
    assert OccursAt("!", Punctuation, 0);
    var stop := res.stopWords;
    assert Keep("Run", stop) && !Keep("!", stop);
    assert FilterTokens(["!"], stop) == [];
    assert FilterTokens(tokens, stop) == ["run"];
    assert Lemmas("Run!", res) == ["run"];
    var tagged := [Tagged("run", res.tagAt(["run"], 0))];
    assert TaggedWords("Run!", res) == tagged;
    assert tagged[..0] == [];
    assert Sort(tagged) == Buckets([], [], ["run"], []);
  }

  /** A text made only of stopwords glosses to the empty string, and the
      endpoint still answers with a (blank) gloss rather than an error. */
  lemma ScenarioOnlyStopwords(res: Resources)
    requires res.tokenize("the a an") == ["the", "a", "an"]
    requires "the" in res.stopWords && "a" in res.stopWords && "an" in res.stopWords
    ensures IslGloss("the a an", res) == ""
    ensures ConvertToIsl(Some("the a an"), res) == Converted("the a an", "")
  {
    var tokens := ["the", "a", "an"];
    assert Lower("the") == "the" && Lower("a") == "a" && Lower("an") == "an";
    var stop := res.stopWords;
    assert !Keep("the", stop) && !Keep("a", stop) && !Keep("an", stop);
    assert FilterTokens(["an"], stop) == [];
    assert FilterTokens(["a", "an"], stop) == [];
    assert FilterTokens(tokens, stop) == [];
    GlossShape("the a an", res);
  }
}
