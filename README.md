# News search engine: text preprocessing, ingestion and ranking

A Dafny model of the core of a small local news search engine. The program
reads articles with their headings, turns each article into a list of
normalized tokens, builds a BM25 index over the token lists, and answers a
query with the `top_k` best-scoring articles.

The repository holds two copies of the same program,
`News_Search_Engine/IR_ASM_3.py` and `News_Search_Engine/IR_system.py`. They
differ only in comments and blank lines, so one model covers both. The line
ranges match up as follows:

| part | IR_ASM_3.py | IR_system.py |
|---|---|---|
| `TextPreprocessor.process` | 31-54 | 33-52 |
| `LocalIRSystem.__init__` | 58-64 | 56-62 |
| `ingest_data` | 66-95 | 64-86 |
| `build_index` | 97-104 | 88-95 |
| `search` | 106-122 | 97-111 |

The model has four modules:

- `PyText` (`py_text.dfy`): the Python string operations the program relies
  on. These are `str.isspace` and `str.strip()` (used to skip blank
  articles), `str.lower()` on ASCII letters, and `str.translate` with the
  table that maps each character of `string.punctuation` to a space.
- `Preprocess` (`preprocess.dfy`): `TextPreprocessor.process`. A
  `Preprocessor` value holds the stopword set and the two NLTK routines,
  `word_tokenize` and `PorterStemmer.stem`. Both routines are arbitrary
  functions, so every property proved holds for any tokenizer and any
  stemmer.
- `Ranking` (`ranking.dfy`): the `(title, content, score)` triples, Python's
  truncating `zip`, a stable descending sort by score, and the cut to
  `top_k`.
- `Retrieval` (`retrieval.dfy`): the class `LocalIRSystem`. It has the
  three parallel lists `documents`, `docTitles` and `corpus`, an optional
  index, and the operations ingest, build index and search. Ingestion takes
  the rows of the CSV file as a value. `Valid()` is the class invariant:
  - the lists have equal length;
  - `corpus[i]` is the processed `documents[i]`;
  - an existing index was built from a non-empty prefix of the corpus.

The BM25 library is represented by its interface. `Bm25Index` records the
corpus an index was built from. `Scorer` stands for `get_scores` and is a
function parameter of `Search`. Scores are `real`.

Behaviour of the code worth noting:

- Building on an empty corpus raises nothing. It prints a message and
  leaves the index as it was, so it stays unset.
- Searching before an index exists raises nothing and returns `[]`.
- Python lowercases all of Unicode. The model lowercases ASCII only (see
  below).
- Calling `ingest_data` again after `build_index` keeps the old index, and
  `zip` then cuts the ranking to the documents that index knows. The
  `Valid()` invariant allows this state, and `Search`'s length guarantee is
  stated only for an index built from the current corpus.

## Model

| member | source | states |
|---|---|---|
| `PyText.StripEmptyIffAllSpace` | News_Search_Engine/IR_ASM_3.py:85 | `not s.strip()` holds exactly when every character of `s` is Python whitespace (the empty string included) |
| `PyText.TrimStartShape` | News_Search_Engine/IR_ASM_3.py:85 | the leading strip removes only a run of whitespace from the front; what remains is a suffix that is empty or starts with a non-space |
| `PyText.TrimEndShape` | News_Search_Engine/IR_ASM_3.py:85 | the trailing strip removes only a run of whitespace from the back; what remains is a prefix that is empty or ends with a non-space |
| `PyText.Strip` | News_Search_Engine/IR_ASM_3.py:85 | `str.strip()` with no argument, defined as the trailing strip of the leading strip; what it removes is given by `TrimStartShape`, `TrimEndShape` and `StripEmptyIffAllSpace` |
| `PyText.LowerChar` | News_Search_Engine/IR_ASM_3.py:39 | `A`..`Z` become the letter 32 code points higher (`a`..`z`); every other character is unchanged |
| `PyText.AsciiLower` | News_Search_Engine/IR_ASM_3.py:39 | lowercasing keeps the length, maps each position through `LowerChar`, and leaves no upper-case ASCII letter |
| `PyText.AsciiLowerIdempotent` | News_Search_Engine/IR_ASM_3.py:39 | lowercasing twice gives the same string as lowercasing once |
| `PyText.StripPunctuation` | News_Search_Engine/IR_ASM_3.py:42 | the translation keeps the length and turns each punctuation character into exactly one space; other characters are unchanged and no punctuation remains |
| `PyText.StripPunctuationIdempotent` | News_Search_Engine/IR_system.py:41 | translating an already translated string changes nothing |
| `Preprocess.Keeps` | News_Search_Engine/IR_ASM_3.py:51 | the comprehension's condition: the token is not in the stopword set and is longer than one character |
| `Preprocess.Normalize` | News_Search_Engine/IR_ASM_3.py:38-42 | the text given to the tokenizer has the input's length and contains neither punctuation nor upper-case ASCII letters |
| `Preprocess.NormalizeAt` | News_Search_Engine/IR_ASM_3.py:38-42 | position by position: punctuation becomes a space, every other character is lowercased (the two steps never interfere) |
| `Preprocess.Process` | News_Search_Engine/IR_ASM_3.py:35-36 | empty input text gives the empty token list |
| `Preprocess.CleanTokens` | News_Search_Engine/IR_ASM_3.py:48-52 | the comprehension yields at most as many tokens as it is given |
| `Preprocess.CleanTokensIsStemOfKept` | News_Search_Engine/IR_ASM_3.py:48-52 | the comprehension equals `map(stem, filter(w not in stop_words and len(w) > 1, tokens))` |
| `Preprocess.CleanTokensAppend` | News_Search_Engine/IR_ASM_3.py:48-52 | cleaning a concatenation of token lists gives the concatenation of the cleaned parts, so each token is handled independently and in order |
| `Preprocess.CleanTokensSkipsRejected` | News_Search_Engine/IR_system.py:49 | a stopword or a token of length at most 1 adds nothing to the output, wherever it occurs in the token list |
| `Preprocess.CleanTokensOrder` | News_Search_Engine/IR_ASM_3.py:48-52 | output element `j` is the stem of the token at the `j`-th kept position (order preserved) |
| `Preprocess.KeptIndicesExact` | News_Search_Engine/IR_system.py:46-50 | the kept positions strictly increase, and a position is kept if and only if its token is not a stopword and has length greater than 1 |
| `Preprocess.ProcessOrder` | News_Search_Engine/IR_ASM_3.py:44-54 | for non-empty text, `process` returns the stems of the kept tokens of the normalized, tokenized text, in order: output element `j` is the stem of the token at the `j`-th position whose token is not a stopword and is longer than one character; there are at most as many as there are tokens |
| `Ranking.Zip` | News_Search_Engine/IR_ASM_3.py:117 | `zip` has the length of its shortest input, and entry `i` is the triple of the `i`-th title, document and score |
| `Ranking.Insert` | News_Search_Engine/IR_ASM_3.py:120 | one insertion step of the sort adds exactly the new hit (multiset union) |
| `Ranking.InsertSorted` | News_Search_Engine/IR_ASM_3.py:120 | inserting a hit into a score-descending sequence keeps it score-descending |
| `Ranking.InsertWithScore` | News_Search_Engine/IR_ASM_3.py:120 | the inserted hit comes before every hit of the same score that is already present |
| `Ranking.SortByScore` | News_Search_Engine/IR_ASM_3.py:120 | the sort returns a permutation of its input (same multiset), in non-increasing score order |
| `Ranking.SortByScoreStable` | News_Search_Engine/IR_ASM_3.py:120 | for every score value, hits with that score appear in the same relative order as in the input (stable with `reverse=True`) |
| `Ranking.SortedStableUnique` | News_Search_Engine/IR_system.py:109 | two sequences that are both score-descending and agree on the order within every score class are equal |
| `Ranking.SortByScoreIsUnique` | News_Search_Engine/IR_ASM_3.py:120 | any score-descending arrangement with the input's order inside each score class is exactly the model's sort, so the model's sort is Python's stable `sorted(..., reverse=True)` |
| `Ranking.WithScorePrefix` | News_Search_Engine/IR_ASM_3.py:122 | cutting a sequence cuts each score class to a prefix |
| `Ranking.SortedPrefix` | News_Search_Engine/IR_ASM_3.py:122 | a prefix of a sorted sequence is sorted and drawn from it, and no element after the cut scores above an element before it |
| `Ranking.Rank` | News_Search_Engine/IR_ASM_3.py:119-122 | the ranked list has `min(top_k, n)` entries in non-increasing score order and is a sub-multiset of the hits; no hit left out scores above a kept one; within each score, the kept hits are the earliest in input order |
| `Ranking.RankOfSorted` | News_Search_Engine/IR_ASM_3.py:120-122 | hits already in descending order are only truncated |
| `Ranking.RankAllTied` | News_Search_Engine/IR_system.py:109-111 | when all scores are equal, the result is the first `top_k` hits in ingestion order |
| `Retrieval.Content` | News_Search_Engine/IR_ASM_3.py:81 | `row.get('Article', '')`: the row's article, or the empty string when the row has no `Article` column |
| `Retrieval.Heading` | News_Search_Engine/IR_ASM_3.py:82 | `row.get('Heading', 'Untitled')`: the row's heading, or `Untitled` when the row has no `Heading` column |
| `Retrieval.IsBlank` | News_Search_Engine/IR_ASM_3.py:85 | `not content.strip()` on the row's article; `KeptRowsHaveText` shows it means the article is all whitespace |
| `Retrieval.KeptRows` | News_Search_Engine/IR_ASM_3.py:79-86 | the rows the loop does not skip, in file order and no more than there are rows; which ones they are is given by `KeptRowsMembers` and `BlankRowSkipped` |
| `Retrieval.KeptRowsAppend` | News_Search_Engine/IR_ASM_3.py:79-93 | the rows kept from a concatenation are the rows kept from each part, in order |
| `Retrieval.BlankRowSkipped` | News_Search_Engine/IR_system.py:77-78 | a row whose article is empty or whitespace-only changes nothing, wherever it occurs among the rows |
| `Retrieval.KeptRowsMembers` | News_Search_Engine/IR_ASM_3.py:84-86 | a row is kept if and only if it is one of the input rows and its stripped article is non-empty |
| `Retrieval.KeptRowsHaveText` | News_Search_Engine/IR_ASM_3.py:85-86 | a row is kept if and only if its article contains a character that is not whitespace |
| `Retrieval.ColumnsAppend` | News_Search_Engine/IR_ASM_3.py:88-92 | extending the kept rows by one row extends each of the three columns by that row's heading, article and processed article |
| `Retrieval.LocalIRSystem.constructor` | News_Search_Engine/IR_ASM_3.py:58-64 | a new system keeps the given data file and preprocessor, has three empty lists and no index, and satisfies the invariant |
| `Retrieval.LocalIRSystem.IngestData` | News_Search_Engine/IR_ASM_3.py:66-95 | if the file is missing, nothing changes and the count is 0; otherwise the three lists grow by the headings, articles and processed articles of the non-blank rows in file order, `count` is the number added, and the invariant holds |
| `Retrieval.LocalIRSystem.IngestRows` | News_Search_Engine/IR_system.py:73-84 | after the row loop, the lists equal their old contents followed by the columns of the kept rows, `count == |kept rows|`, and the lists stay in lockstep with `corpus[i] == process(documents[i])` |
| `Retrieval.LocalIRSystem.IngestRow` | News_Search_Engine/IR_ASM_3.py:81-93 | a blank article leaves all three lists unchanged; otherwise each list gains exactly one entry (heading, article, processed article) |
| `Retrieval.LocalIRSystem.BuildIndex` | News_Search_Engine/IR_ASM_3.py:97-104 | an empty corpus leaves the index unset; otherwise the index is built from the current corpus |
| `Retrieval.LocalIRSystem.Search` | News_Search_Engine/IR_ASM_3.py:106-122 | with no index the result is `[]`; otherwise it is the ranking of the zipped (title, document, score) triples for the processed query; with an index of the current corpus and one score per document it has `min(top_k, |documents|)` entries |

## Left out

- Reading the file: `os.path.exists`, `open` and `csv.DictReader`. Ingestion receives `None` (the file is missing) or the list of rows. A row gives `Heading` and `Article` as options; a missing column takes the source's default (`'Untitled'` or `''`). The model does not cover a `DictReader` row that is too short and therefore holds `None` as a value.
- Everything printed and timed, `setup_nltk` with its downloads, and the `main` loop, including its display rule that hides results whose score is not above 0. These are console interaction only.
- `word_tokenize`, `PorterStemmer.stem` and the NLTK English stopword list are library code. The first two are arbitrary functions and the list is a given set. Whether normalizing twice gives the same tokens depends on the tokenizer and stemmer, so it is not stated.
- `BM25Okapi` construction and `get_scores`: the index is identified by its corpus, and scoring is an arbitrary function from index and query tokens to a list of scores. The scoring formula and floating-point arithmetic (NaN included) are not modelled; scores are unbounded reals.
- PyText.AsciiLower: lowercases only `A`..`Z`. Python's `str.lower()` also lowercases other Unicode letters, and can change the length (one character can become two); that is not modelled.
- Preprocess.Process: the input is a string. Python's `not text` also covers `None`, which `search` and `ingest_data` never pass.
- Retrieval.LocalIRSystem.Search: `top_k` is a natural number. Python's slicing with a negative `top_k` is not modelled; the only caller uses 3.
- `data_file` is stored as `dataFile` but never opened, since file access is outside the model.
