/** `LocalIRSystem`: three parallel lists filled by ingestion, an index that
    is set once the corpus is non-empty, and search that ranks the documents
    by the index's scores. The CSV reader is replaced by its rows and the BM25
    library by an opaque index value and a scoring function. */
module Retrieval {
  import opened PyText
  import opened Preprocess
  import opened Ranking

  datatype Option<T> = None | Some(value: T)

  /** One row of the CSV file: the `Heading` and `Article` columns, `None`
      when the row has no such column. */
  datatype Row = Row(heading: Option<string>, article: Option<string>)

  /** `row.get('Article', '')`. */
  function Content(row: Row): (r: string)
    ensures row.article.Some? ==> r == row.article.value
    ensures row.article.None? ==> r == ""
  {
    match row.article
    case Some(a) => a
    case None => ""
  }

  /** `row.get('Heading', 'Untitled')`. */
  function Heading(row: Row): (r: string)
    ensures row.heading.Some? ==> r == row.heading.value
    ensures row.heading.None? ==> r == "Untitled"
  {
    match row.heading
    case Some(h) => h
    case None => "Untitled"
  }

  /** `not content.strip()`: the article is empty or whitespace only. */
  predicate IsBlank(row: Row) {
    Strip(Content(row)) == []
  }

  /** The rows that ingestion keeps, in file order. */
  function KeptRows(rows: seq<Row>): (r: seq<Row>)
    ensures |r| <= |rows|
  {
    if rows == [] then []
    else
      var init, last := rows[..|rows| - 1], rows[|rows| - 1];
      assert rows == init + [last];
      KeptRows(init) + (if IsBlank(last) then [] else [last])
  }

  /** Ingestion treats rows one at a time: the rows kept from a concatenation
      are the rows kept from each part. */
  lemma {:induction false} KeptRowsAppend(a: seq<Row>, b: seq<Row>)
    ensures KeptRows(a + b) == KeptRows(a) + KeptRows(b)
    decreases |b|
  {
    if b == [] {
      assert a + b == a;
    } else {
      var n := |b| - 1;
      assert (a + b)[..|a + b| - 1] == a + b[..n];
      assert (a + b)[|a + b| - 1] == b[n];
      KeptRowsAppend(a, b[..n]);
    }
  }

  /** A row whose article is empty or whitespace only contributes nothing,
      wherever it occurs. */
  lemma BlankRowSkipped(a: seq<Row>, row: Row, b: seq<Row>)
    requires IsBlank(row)
    ensures KeptRows(a + [row] + b) == KeptRows(a + b)
  {
    KeptRowsAppend(a + [row], b);
    KeptRowsAppend(a, b);
    KeptRowsSnoc(a, row);
    assert KeptRows(a + [row]) == KeptRows(a);
  }

  /** Appending a row: it is kept exactly when its article is not blank. */
  lemma KeptRowsSnoc(a: seq<Row>, row: Row)
    ensures KeptRows(a + [row]) == KeptRows(a) + (if IsBlank(row) then [] else [row])
  {
    var s := a + [row];
    assert s[..|s| - 1] == a && s[|s| - 1] == row;
  }

  /** Exactly the rows with a non-blank article are kept. */
  lemma {:induction false} KeptRowsMembers(rows: seq<Row>)
    ensures forall x :: x in KeptRows(rows) <==> x in rows && !IsBlank(x)
  {
    if rows != [] {
      var init, last := rows[..|rows| - 1], rows[|rows| - 1];
      KeptRowsMembers(init);
      assert rows == init + [last];
    }
  }

  /** A kept row's article has a character that is not whitespace, and a row
      whose article has one is kept. */
  lemma KeptRowsHaveText(rows: seq<Row>)
    ensures forall x :: x in KeptRows(rows) <==> x in rows && !AllSpace(Content(x))
  {
    KeptRowsMembers(rows);
    forall x | x in rows ensures IsBlank(x) <==> AllSpace(Content(x)) {
      StripEmptyIffAllSpace(Content(x));
    }
  }

  /** The `Heading` column of the given rows. */
  function Titles(rows: seq<Row>): seq<string>
  {
    seq(|rows|, i requires 0 <= i < |rows| => Heading(rows[i]))
  }

  /** The `Article` column of the given rows. */
  function Contents(rows: seq<Row>): seq<string>
  {
    seq(|rows|, i requires 0 <= i < |rows| => Content(rows[i]))
  }

  /** The processed tokens of each row's article. */
  function Tokenized(p: Preprocessor, rows: seq<Row>): seq<seq<string>>
  {
    seq(|rows|, i requires 0 <= i < |rows| => Process(p, Content(rows[i])))
  }

  lemma ColumnsAppend(p: Preprocessor, rows: seq<Row>, row: Row)
    ensures Titles(rows + [row]) == Titles(rows) + [Heading(row)]
    ensures Contents(rows + [row]) == Contents(rows) + [Content(row)]
    ensures Tokenized(p, rows + [row]) == Tokenized(p, rows) + [Process(p, Content(row))]
  {
  }

  /** The three parallel lists of `LocalIRSystem`: one title, one article and
      one token list per document, the tokens being the processed article. */
  ghost predicate Lockstep(p: Preprocessor, titles: seq<string>, docs: seq<string>, corpus: seq<seq<string>>) {
    && |titles| == |docs| == |corpus|
    && (forall i :: 0 <= i < |corpus| ==> corpus[i] == Process(p, docs[i]))
  }

  /** Regrouping a concatenation; the ingestion loop's proof needs it spelled out. */
  lemma AppendAssoc<T>(a: seq<T>, b: seq<T>, c: seq<T>)
    ensures a + b + c == a + (b + c)
  {
  }

  /** A `BM25Okapi` object, identified by the corpus it was built from. */
  datatype Bm25Index = Bm25Index(corpus: seq<seq<string>>)

  /** `BM25Okapi.get_scores`: one score per document of the index's corpus
      for a tokenized query. It is library code and is left abstract. */
  type Scorer = (Bm25Index, seq<string>) -> seq<real>

  class LocalIRSystem {
    const dataFile: string
    const preprocessor: Preprocessor
    /** Raw article text of each ingested document. */
    var documents: seq<string>
    /** Heading of each ingested document. */
    var docTitles: seq<string>
    /** Processed tokens of each ingested document. */
    var corpus: seq<seq<string>>
    /** `self.bm25`: `None` until `BuildIndex` runs on a non-empty corpus. */
    var index: Option<Bm25Index>

    /** The three lists have one entry per document, the corpus holds the
        processed text of each document, and an index was built from a
        non-empty earlier state of the corpus (ingestion after indexing does
        not rebuild it). */
    ghost predicate Valid()
      reads this
    {
      && Lockstep(preprocessor, docTitles, documents, corpus)
      && (index.Some? ==> index.value.corpus != [] && index.value.corpus <= corpus)
    }

    constructor (dataFile: string, preprocessor: Preprocessor)
      ensures Valid()
      ensures this.dataFile == dataFile && this.preprocessor == preprocessor
      ensures documents == [] && docTitles == [] && corpus == [] && index == None
    {
      this.dataFile := dataFile;
      this.preprocessor := preprocessor;
      documents, docTitles, corpus := [], [], [];
      index := None;
    }

    /** `ingest_data`: `source` is `None` when the data file does not exist,
        and then nothing changes; otherwise its rows are ingested. */
    method IngestData(source: Option<seq<Row>>) returns (count: nat)
      requires Valid()
      modifies this`documents, this`docTitles, this`corpus
      ensures Valid()
      ensures source.None? ==> count == 0 && unchanged(this)
      ensures source.Some? ==>
        var kept := KeptRows(source.value);
        && count == |kept|
        && docTitles == old(docTitles) + Titles(kept)
        && documents == old(documents) + Contents(kept)
        && corpus == old(corpus) + Tokenized(preprocessor, kept)
    {
      if source.None? {
        return 0;
      }
      count := IngestRows(source.value);
    }

    /** The loop of `ingest_data` over the rows of the file. Every row with a
        non-blank article adds its heading, its article and the article's
        tokens to the three lists; `count` is the number of rows added. */
    method IngestRows(rows: seq<Row>) returns (count: nat)
      requires Valid()
      modifies this`documents, this`docTitles, this`corpus
      ensures Valid()
      ensures count == |KeptRows(rows)|
      ensures docTitles == old(docTitles) + Titles(KeptRows(rows))
      ensures documents == old(documents) + Contents(KeptRows(rows))
      ensures corpus == old(corpus) + Tokenized(preprocessor, KeptRows(rows))
    {
      ghost var kept: seq<Row> := [];
      count := 0;
      var i := 0;
      while i < |rows|
        invariant 0 <= i <= |rows|
        invariant Valid()
        invariant kept == KeptRows(rows[..i])
        invariant count == |kept|
        invariant docTitles == old(docTitles) + Titles(kept)
        invariant documents == old(documents) + Contents(kept)
        invariant corpus == old(corpus) + Tokenized(preprocessor, kept)
      {
        assert rows[..i + 1] == rows[..i] + [rows[i]];
        KeptRowsSnoc(rows[..i], rows[i]);
        ColumnsAppend(preprocessor, kept, rows[i]);
        var added := IngestRow(rows[i]);
        if added {
          AppendAssoc(old(docTitles), Titles(kept), [Heading(rows[i])]);
          AppendAssoc(old(documents), Contents(kept), [Content(rows[i])]);
          AppendAssoc(old(corpus), Tokenized(preprocessor, kept), [Process(preprocessor, Content(rows[i]))]);
          kept := kept + [rows[i]];
          count := count + 1;
        }
        i := i + 1;
      }
      assert rows[..i] == rows;
    }

    /** One pass of the ingestion loop: a row whose article is blank is
        skipped; otherwise its heading, its article and the article's tokens
        are appended in lockstep. */
    method IngestRow(row: Row) returns (added: bool)
      requires Valid()
      modifies this`documents, this`docTitles, this`corpus
      ensures Valid()
      ensures added == !IsBlank(row)
      ensures !added ==> unchanged(this)
      ensures added ==>
        && docTitles == old(docTitles) + [Heading(row)]
        && documents == old(documents) + [Content(row)]
        && corpus == old(corpus) + [Process(preprocessor, Content(row))]
    {
      var content := Content(row);
      var heading := Heading(row);
      if Strip(content) == [] {
        return false;
      }
      docTitles := docTitles + [heading];
      documents := documents + [content];
      corpus := corpus + [Process(preprocessor, content)];
      return true;
    }

    /** `build_index`: an empty corpus leaves the index as it was (and so
        unset); otherwise the index is built from the current corpus. */
    method BuildIndex()
      requires Valid()
      modifies this`index
      ensures Valid()
      ensures corpus == [] ==> index == None
      ensures old(corpus) != [] ==> index == Some(Bm25Index(corpus))
    {
      if corpus == [] {
        return;
      }
      index := Some(Bm25Index(corpus));
    }

    /** `search`: nothing before an index exists; otherwise the documents
        zipped with their titles and scores, ranked, cut to `topK`. With an
        index built from the current corpus and one score per document, the
        result has `min(topK, |documents|)` entries. */
    function Search(query: string, topK: nat, scorer: Scorer): (r: seq<Hit>)
      reads this
      ensures index.None? ==> r == []
      ensures index.Some? ==>
        r == Rank(Zip(docTitles, documents, scorer(index.value, Process(preprocessor, query))), topK)
      ensures (Valid() && index == Some(Bm25Index(corpus))
               && |scorer(index.value, Process(preprocessor, query))| == |corpus|) ==>
        |r| == Min(topK, |documents|)
    {
      match index
      case None => []
      case Some(bm25) =>
        var tokens := Process(preprocessor, query);
        var scores := scorer(bm25, tokens);
        var hits := Zip(docTitles, documents, scores);
        Rank(hits, topK)
    }
  }
}
