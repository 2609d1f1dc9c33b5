# ISL gloss pipeline and vitals window builder, modelled in Dafny

This project models two parts of the `isl_app` repository.

**The English-to-ISL gloss pipeline** (`english_to_isl` and `convert_to_isl` in
`backend/app.py`). English text is tokenized. Each token is lower-cased, and
stopwords and punctuation are dropped. The survivors are lemmatized and
part-of-speech tagged. A single left-to-right pass then sorts the tagged words
into four buckets: the first noun is the subject, later nouns are objects, then
verbs, then everything else. The gloss is the four buckets concatenated in that
order and joined with single spaces. The endpoint answers an empty or absent
`text` with the error "No text provided" and HTTP status 500.

**The training-data preparation of the vitals trainer** (`lib/train_model.py`).
`process_flutter_data` projects each JSON record onto five vital-sign fields.
`prepare_data_for_lstm` cuts the readings into sliding windows of
`sequence_length` rows, each window labelled with the label that follows it.

Modules, one per component:

- `Wrappers` (`wrappers.dfy`): `Option` and `Result`.
- `Strings` (`strings.dfy`): Python's `str.lower`, the substring test `w in s`, `" ".join`, and `str.split(" ")` as its inverse.
- `TokenFilter` (`token_filter.dfy`): the stopword/punctuation filter.
- `SovReorder` (`sov_reorder.dfy`): the tag classification and the bucket loop. `Sort` is the loop as a left fold. `Select` is an independent reference: the words of one class, in input order. `ReorderSov` is the loop itself.
- `IslService` (`isl_service.dfy`): the lemmatizer and tagger adapters, the whole pipeline, and the endpoint's text check.
- `LstmData` (`lstm_data.dfy`): `process_flutter_data` and `prepare_data_for_lstm`.

The toolkit calls are parameters of the model, bundled in
`IslService.Resources`:

- the tokenizer is `tokenize: string -> seq<string>`;
- the lemmatizer is `lemmatize: string -> string`, so there is one lemma per word;
- the tagger is `tagAt: (seq<string>, nat) -> string`. It sees the whole word sequence and gives the tag at one position, so it yields exactly one `(word, tag)` pair per input word and keeps the words unchanged;
- the stopword set is the parameter `stopWords`.

The punctuation test `word not in string.punctuation` (backend/app.py:25) is a
substring test. The empty token, `"!"` and `"()"` are dropped; `"..."` is kept
(`TokenFilter.PunctuationIsSubstringTest`).

## Model

| member | source | states |
|---|---|---|
| `Strings.LowerProperties` | backend/app.py:23-24 | Lowering keeps the length, yields no upper-case letter, fixes lower-case strings, and is idempotent |
| `Strings.SplitJoin` | backend/app.py:48 | For a non-empty word list with no spaces inside words, splitting the joined string on a single space gives the list back |
| `Strings.JoinLength` | backend/app.py:48 | The joined length is the total word length plus one separator between each two neighbours; the result is `""` exactly when there is at most one word and it is empty |
| `TokenFilter.FilterTokens` | backend/app.py:22-26 | The output is no longer than the input; every survivor is lower-case, is not a stopword and is not a substring of the punctuation string |
| `TokenFilter.LoweredPunctuation` | backend/app.py:23-25 | Lowering cannot turn a token into a punctuation substring: if the lowered token is one, lowering did not change the token |
| `TokenFilter.LetterIsNotPunctuation` | backend/app.py:25 | A token containing an ASCII letter never fails the punctuation test |
| `TokenFilter.PunctuationIsSubstringTest` | backend/app.py:25 | The punctuation test is a substring test: `""`, `"!"` and `"()"` are punctuation substrings, `"..."` is not |
| `TokenFilter.FilterAppend` | backend/app.py:22-26 | Filtering distributes over concatenation, so survivors keep input order and each token is judged alone |
| `TokenFilter.FilterMembership` | backend/app.py:22-26 | A string survives exactly when some input token passes both tests and lowers to it |
| `TokenFilter.FilterIdempotent` | backend/app.py:22-26 | Filtering the filter's output changes nothing |
| `SovReorder.ClassifyByFirstTwo` | backend/app.py:36-44 | The noun test comes first; the class depends only on the first two characters of the tag; "NN" means noun, otherwise "VB" means verb, and every other tag (including one shorter than two characters) is other |
| `SovReorder.SortBySelect` | backend/app.py:33-47 | The loop is a stable four-way partition: subject is the first noun if any, objects are the remaining nouns, and verbs and others are the words of those classes, each in input order |
| `SovReorder.SelectAppend` | backend/app.py:35-44 | The per-class selection distributes over concatenation, so buckets keep relative input order |
| `SovReorder.SelectEmpty` | backend/app.py:35-44 | A class selects no word exactly when no tag falls into that class |
| `SovReorder.SubjectRule` | backend/app.py:36-40 | The subject bucket holds at most one word, and it is non-empty exactly when some tag starts with "NN" |
| `SovReorder.FirstNounIsSubject` | backend/app.py:35-40 | If the first noun is at index j, the subject is that word and the objects are exactly the nouns after j, in order |
| `SovReorder.SortPermutation` | backend/app.py:35-47 | `subject + objects + verb + others` is a permutation of the tagged words, with the same length |
| `SovReorder.ReorderSov` | backend/app.py:33-47 | The loop computes the left fold `Sort`, equals the stable-partition reference, and its concatenation is a permutation of the tagged words |
| `IslService.LemmatizeAll` | backend/app.py:29 | One lemma per filtered word, in order, each the lemmatizer's answer for that word |
| `IslService.PosTag` | backend/app.py:32 | One tagged pair per word; the words come out unchanged and in order; each tag is the tagger's answer at that position in the whole sequence |
| `IslService.EnglishToIsl` | backend/app.py:17-48 | The pipeline method returns the composed gloss, and returns `""` when the filter leaves nothing |
| `IslService.GlossShape` | backend/app.py:29-48 | Filtering everything away gives `""`; the gloss words are a permutation of the lemmas, as many as the filtered tokens; when none holds a space, splitting the gloss on single spaces gives back the bucket words |
| `IslService.ConvertToIsl` | backend/app.py:53-68 | Failure happens exactly for an absent or empty text, and is then "No text provided" with status 500; otherwise the response carries the original text and its gloss |
| `IslService.NoTextIgnoresPipeline` | backend/app.py:56-58 | On an absent or empty text the response does not depend on the tokenizer, filter, lemmatizer or tagger |
| `IslService.ScenarioCatMouse` | backend/app.py:17-48 | "The cat chased the mouse", tagged noun/verb/noun, glosses to "cat mouse chased" |
| `IslService.ScenarioRun` | backend/app.py:17-48 | "Run!" with a verb tag glosses to "run"; the "!" is dropped as punctuation |
| `IslService.ScenarioOnlyStopwords` | backend/app.py:17-68 | A text of stopwords glosses to `""`, and the endpoint returns that blank gloss, not an error |
| `LstmData.FirstMissing` | lib/train_model.py:16-22 | Finds nothing exactly when all names are keys; otherwise it returns the first name, in order, that is not a key |
| `LstmData.ProjectRecord` | lib/train_model.py:16-22 | A record projects exactly when it has all five fields; otherwise the error is a KeyError naming the first missing field in literal order |
| `LstmData.ProjectKeepsFields` | lib/train_model.py:16-22 | A projected reading has exactly the five field names; each field is the record's value, except `bloodSugar`, which is converted |
| `LstmData.ProcessFlutterData` | lib/train_model.py:13-23 | Succeeds exactly when every record projects, and then returns one reading per record, in order; otherwise fails with the error of the first bad record |
| `LstmData.RowFields` | lib/train_model.py:55-57 | A row has five entries; entry k is the field named by the k-th entry of heartRate, bloodPressureSystolic, bloodPressureDiastolic, temperature, bloodSugar; the reading can be rebuilt from its row |
| `LstmData.WindowsSlide` | lib/train_model.py:53-59 | Consecutive windows share all rows but one: window i without its first row is window i+1 without its last row |
| `LstmData.PrepareDataForLstm` | lib/train_model.py:50-64 | With labels present, fails with IndexError exactly when there is a window and the labels are shorter than the readings. Otherwise there are max(0, n-L) windows; window i has L rows, row k being the projection of reading i+k; y is absent exactly when labels are absent, and otherwise y[i] = labels[i+L], as many as windows |

## Left out

- Tokenizer, lemmatizer and tagger internals (`word_tokenize`, `WordNetLemmatizer.lemmatize`, `nltk.pos_tag`): these are foreign toolkit code. They are parameters; the tagger's shape guarantees one pair per word.
- The English stopword corpus (backend/app.py:15): this is a foreign resource, so it is the `stopWords` parameter.
- `Strings.LowerProperties`: lowercasing is modelled for ASCII `A`-`Z` only. Python's `str.lower` also maps non-ASCII letters, and its Unicode rules are not modelled.
- `TokenFilter.FilterTokens`: inherits the ASCII-only lowercasing above. Its contracts hold for that model of `str.lower`.
- Flask routing, CORS, `request.json`, `jsonify`, the `print` logging and `app.run` (backend/app.py:1-11, 50-54, 70-71): these are HTTP and I/O plumbing. A success response stands for HTTP 200.
- `IslService.ConvertToIsl`: the catch-all handler for unexpected internal failures is not modelled, because the modelled pipeline stages are total. A `text` field holding a non-string JSON value is outside the model, which takes `text` as an optional string.
- backend/nltk_setup.py is not part of this model: it only downloads resources.
- web/tflite_runner.js is not part of this model: it does asynchronous model loading and float32 inference.
- lib/train_model.py outside the two modelled functions: `generate_sample_data` uses randomness and floats, `create_model` and `train_and_convert` are model training, and `load_flutter_data` and `convert_to_tflite` are file I/O.
- The `np.array` conversion at the end of `prepare_data_for_lstm`: the result is modelled as nested sequences.
- `LstmData.ProjectRecord`: Python's `float(...)` on `bloodSugar` is the opaque total function `toFloat`. The `ValueError` that `float` raises on a malformed value is not modelled.
- `LstmData.PrepareDataForLstm`: `sequence_length` is a required natural number; the source's default of 5 (lib/train_model.py:50), on which its callers rely, is a caller passing `len := 5`. Python would also accept a negative length, with negative-slice semantics, which the model does not capture. Readings are typed five-field records, as both producers in the file emit, so a reading lacking a key (a `KeyError` in the row comprehension) cannot occur here.
