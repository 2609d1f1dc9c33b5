/** Step 4 of the gloss pipeline: the Subject-Object-Verb reorderer
    (backend/app.py, the loop over `tagged_tokens` and the concatenation
    `subject + object_ + verb + others`). */
module SovReorder {

  /** A word with the fine-grained part-of-speech tag the tagger gave it. */
  datatype Tagged = Tagged(word: string, tag: string)

  /** The coarse class a tag collapses to. */
  datatype Role = Noun | Verb | Other

  /** The four lists the loop fills. */
  datatype Buckets = Buckets(subject: seq<string>, objects: seq<string>, verb: seq<string>, others: seq<string>)

  /** Python's `s.startswith(prefix)`. */
  predicate StartsWith(s: string, prefix: string)
  {
    |prefix| <= |s| && s[..|prefix|] == prefix
  }

  /** The noun test comes first, then the verb test; every other tag,
      including the empty one, is `Other`. */
  function Classify(tag: string): Role
  {
    if StartsWith(tag, "NN") then Noun
    else if StartsWith(tag, "VB") then Verb
    else Other
  }

  /** The class depends on the first two characters of the tag only, and a
      tag shorter than two characters is always `Other`. */
  lemma ClassifyByFirstTwo(tag: string, suffix: string)
    ensures |tag| < 2 ==> Classify(tag) == Other
    ensures |tag| >= 2 ==> Classify(tag + suffix) == Classify(tag) == Classify(tag[..2])
    ensures Classify(tag) == Noun <==> |tag| >= 2 && tag[0] == 'N' && tag[1] == 'N'
    ensures Classify(tag) == Verb <==> |tag| >= 2 && tag[0] == 'V' && tag[1] == 'B'
  {
    if |tag| >= 2 {
      assert (tag + suffix)[..2] == tag[..2];
      assert tag[..2][..2] == tag[..2];
      assert tag[..2] == [tag[0], tag[1]];
    }
  }

  function EmptyBuckets(): Buckets
  {
    Buckets([], [], [], [])
  }

  /** One iteration of the loop: where the next tagged word goes. */
  function Place(b: Buckets, t: Tagged): Buckets
  {
    match Classify(t.tag)
    case Noun =>
      if b.subject == [] then b.(subject := b.subject + [t.word])
      else b.(objects := b.objects + [t.word])
    case Verb => b.(verb := b.verb + [t.word])
    case Other => b.(others := b.others + [t.word])
  }

  /** The buckets after the left-to-right pass over `ts`. */
  function Sort(ts: seq<Tagged>): Buckets
    decreases |ts|
  {
    if ts == [] then EmptyBuckets()
    else Place(Sort(ts[..|ts| - 1]), ts[|ts| - 1])
  }

  /** `subject + object_ + verb + others`. */
  function Concat(b: Buckets): seq<string>
  {
    b.subject + b.objects + b.verb + b.others
  }

  function Words(ts: seq<Tagged>): seq<string>
  {
    seq(|ts|, i requires 0 <= i < |ts| => ts[i].word)
  }

  /** The reference definition of a stable partition: the words of class
      `role`, in input order. */
  function Select(ts: seq<Tagged>, role: Role): seq<string>
    decreases |ts|
  {
    if ts == [] then []
    else Select(ts[..|ts| - 1], role) + (if Classify(ts[|ts| - 1].tag) == role then [ts[|ts| - 1].word] else [])
  }

  function Head1(s: seq<string>): seq<string>
  {
    if s == [] then [] else [s[0]]
  }

  function Tail1(s: seq<string>): seq<string>
  {
    if s == [] then [] else s[1..]
  }

  /** The reorderer is a stable four-way partition: the subject is the first
      noun (if any), the objects are the remaining nouns, and verbs and others
      are the words of those classes, each in input order. */
  lemma {:induction false} SortBySelect(ts: seq<Tagged>)
    ensures Sort(ts) == Buckets(Head1(Select(ts, Noun)), Tail1(Select(ts, Noun)),
                                Select(ts, Verb), Select(ts, Other))
  {
    if ts != [] {
      var init, t := ts[..|ts| - 1], ts[|ts| - 1];
      SortBySelect(init);
      var n := Select(init, Noun);
      if Classify(t.tag) == Noun && n != [] {
        assert (n + [t.word])[1..] == n[1..] + [t.word];
      }
    }
  }

  lemma {:induction false} SelectAppend(a: seq<Tagged>, b: seq<Tagged>, role: Role)
    ensures Select(a + b, role) == Select(a, role) + Select(b, role)
    decreases |b|
  {
    if b == [] {
      assert a + b == a;
    } else {
      assert (a + b)[..|a + b| - 1] == a + b[..|b| - 1];
      assert (a + b)[|a + b| - 1] == b[|b| - 1];
      SelectAppend(a, b[..|b| - 1], role);
    }
  }

  /** A class has no words exactly when no tag falls into it. */
  lemma {:induction false} SelectEmpty(ts: seq<Tagged>, role: Role)
    ensures Select(ts, role) == [] <==> forall i :: 0 <= i < |ts| ==> Classify(ts[i].tag) != role
  {
    if ts != [] {
      var init := ts[..|ts| - 1];
      SelectEmpty(init, role);
      assert forall i :: 0 <= i < |init| ==> init[i] == ts[i];
    }
  }

  /** The subject bucket holds at most one word, and it holds one exactly
      when some tag starts with "NN". */
  lemma SubjectRule(ts: seq<Tagged>)
    ensures |Sort(ts).subject| <= 1
    ensures Sort(ts).subject != [] <==> exists i :: 0 <= i < |ts| && Classify(ts[i].tag) == Noun
  {
    SortBySelect(ts);
    SelectEmpty(ts, Noun);
  }

  /** When the first noun stands at index `j`, it is the subject and the
      objects are exactly the nouns after it, in input order. */
  lemma FirstNounIsSubject(ts: seq<Tagged>, j: nat)
    requires j < |ts| && Classify(ts[j].tag) == Noun
    requires forall k :: 0 <= k < j ==> Classify(ts[k].tag) != Noun
    ensures Sort(ts).subject == [ts[j].word]
    ensures Sort(ts).objects == Select(ts[j + 1..], Noun)
  {
    var nouns := Select(ts, Noun);
    var later := Select(ts[j + 1..], Noun);
    assert nouns == [ts[j].word] + later by {
      NounsFromFirst(ts, j);
    }
    assert Head1(nouns) == [ts[j].word] && Tail1(nouns) == later;
    SortBySelect(ts);
  }

  lemma NounsFromFirst(ts: seq<Tagged>, j: nat)
    requires j < |ts| && Classify(ts[j].tag) == Noun
    requires forall k :: 0 <= k < j ==> Classify(ts[k].tag) != Noun
    ensures Select(ts, Noun) == [ts[j].word] + Select(ts[j + 1..], Noun)
  {
    var before, t, after := ts[..j], ts[j], ts[j + 1..];
    assert ts == (before + [t]) + after;
    assert Select(before, Noun) == [] by {
      assert forall i :: 0 <= i < |before| ==> before[i] == ts[i];
      SelectEmpty(before, Noun);
    }
    assert Select([t], Noun) == [t.word] by {
      assert [t][..0] == [];
    }
    calc {
      Select(ts, Noun);
      { SelectAppend(before + [t], after, Noun); }
      Select(before + [t], Noun) + Select(after, Noun);
      { SelectAppend(before, [t], Noun); }
      Select(before, Noun) + Select([t], Noun) + Select(after, Noun);
    }
  }

  /** Every tagged word lands in exactly one bucket: the gloss words are a
      permutation of the tagged words. */
  lemma {:induction false} SortPermutation(ts: seq<Tagged>)
    ensures multiset(Concat(Sort(ts))) == multiset(Words(ts))
    ensures |Concat(Sort(ts))| == |ts|
  {
    if ts != [] {
      var init, t := ts[..|ts| - 1], ts[|ts| - 1];
      SortPermutation(init);
      assert Sort(ts) == Place(Sort(init), t);
      PlaceAddsOne(Sort(init), t);
      assert Words(ts) == Words(init) + [t.word] by {
        assert forall i :: 0 <= i < |init| ==> Words(ts)[i] == Words(init)[i];
      }
    }
  }

  /** One iteration adds the word to exactly one bucket. */
  lemma PlaceAddsOne(b: Buckets, t: Tagged)
    ensures multiset(Concat(Place(b, t))) == multiset(Concat(b)) + multiset{t.word}
    ensures |Concat(Place(b, t))| == |Concat(b)| + 1
  {
    var s, o, v, r, w := b.subject, b.objects, b.verb, b.others, [t.word];
    var p := Place(b, t);
    if Classify(t.tag) == Noun && s == [] {
      assert p == Buckets(w, o, v, r);
      assert Concat(p) == w + (s + o + v + r);
    } else if Classify(t.tag) == Noun {
      assert p == Buckets(s, o + w, v, r);
      Insert(s, o, v + r, w);
      assert Concat(p) == s + (o + w) + (v + r);
    } else if Classify(t.tag) == Verb {
      assert p == Buckets(s, o, v + w, r);
      Insert(s + o, v, r, w);
      assert Concat(p) == (s + o) + (v + w) + r;
    } else {
      assert p == Buckets(s, o, v, r + w);
      assert Concat(p) == (s + o + v + r) + w;
    }
  }

  lemma Insert(a: seq<string>, b: seq<string>, c: seq<string>, w: seq<string>)
    ensures multiset(a + (b + w) + c) == multiset(a + b + c) + multiset(w)
    ensures |a + (b + w) + c| == |a + b + c| + |w|
  {
  }

  /** The loop of the source: one pass, appending each word to one of four
      lists. */
  method ReorderSov(tagged: seq<Tagged>) returns (b: Buckets)
    ensures b == Sort(tagged)
    ensures b == Buckets(Head1(Select(tagged, Noun)), Tail1(Select(tagged, Noun)),
                         Select(tagged, Verb), Select(tagged, Other))
    ensures multiset(Concat(b)) == multiset(Words(tagged))
  {
    var subject, objects, verb, others := [], [], [], [];
    for i := 0 to |tagged|
      invariant Buckets(subject, objects, verb, others) == Sort(tagged[..i])
    {
      var word, tag := tagged[i].word, tagged[i].tag;
      assert tagged[..i + 1][..i] == tagged[..i];
      if StartsWith(tag, "NN") {
        if subject == [] {
          subject := subject + [word];
        } else {
          objects := objects + [word];
        }
      } else if StartsWith(tag, "VB") {
        verb := verb + [word];
      } else {
        others := others + [word];
      }
    }
    assert tagged[..|tagged|] == tagged;
    b := Buckets(subject, objects, verb, others);
    SortBySelect(tagged);
    SortPermutation(tagged);
  }
}
