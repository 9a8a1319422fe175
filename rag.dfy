/**
  * `RagService`: the project's memory. Documents are cut into paragraphs,
  * each long paragraph is embedded and stored, and a query is answered by
  * the stored paragraphs most similar to it. The embedding model, the
  * cosine similarity, identifiers and the store file are parameters.
  */
module Rag {
  import opened Text

  // ------------------------------------------------------------------
  // `content.split(/\n\s*\n/)`: paragraphs separated by blank lines
  // ------------------------------------------------------------------

  /** The first index at or after `i` that is not whitespace, or `|s|`. */
  function SpaceRunEnd(s: string, i: nat): (e: nat)
    requires i <= |s|
    ensures i <= e <= |s|
    ensures forall k :: i <= k < e ==> IsSpace(s[k])
    ensures e < |s| ==> !IsSpace(s[e])
    decreases |s| - i
  {
    if i == |s| || !IsSpace(s[i]) then i else SpaceRunEnd(s, i + 1)
  }

  /** The last line feed in `s[lo..hi]`, if any. */
  function LastNewline(s: string, lo: nat, hi: nat): (r: Option<nat>)
    requires lo <= hi <= |s|
    ensures r.Some? ==> lo <= r.value < hi && s[r.value] == '\n'
    ensures r.None? ==> forall k :: lo <= k < hi ==> s[k] != '\n'
    decreases hi - lo
  {
    if hi == lo then None
    else if s[hi - 1] == '\n' then Some(hi - 1)
    else LastNewline(s, lo, hi - 1)
  }

  /**
    * Where a match of `\n\s*\n` starting at `k` ends: `\s*` takes the whole
    * whitespace run after the first line feed and gives back characters
    * until a line feed follows, so the match ends after the run's last line
    * feed.
    */
  function SeparatorEnd(s: string, k: nat): (r: Option<nat>)
    requires k < |s|
    ensures r.Some? ==> k + 2 <= r.value <= |s| && IsSeparator(s[k..r.value])
  {
    if s[k] != '\n' then None
    else
      match LastNewline(s, k + 1, SpaceRunEnd(s, k + 1))
      case None => None
      case Some(t) => Some(t + 1)
  }

  /** A text the pattern `\n\s*\n` matches as a whole. */
  predicate IsSeparator(t: string) {
    |t| >= 2 && t[0] == '\n' && t[|t| - 1] == '\n' && forall k :: 0 <= k < |t| ==> IsSpace(t[k])
  }

  /** A line feed at `i`, another at `j`, and only whitespace between them. */
  predicate BlankLineAt(t: string, i: nat, j: nat) {
    i < j < |t| && t[i] == '\n' && t[j] == '\n' && forall m :: i < m < j ==> IsSpace(t[m])
  }

  /** A text in which no line feed is followed, after whitespace only, by another. */
  ghost predicate NoBlankLine(t: string) {
    forall i: nat, j: nat :: !BlankLineAt(t, i, j)
  }

  /** A blank line starting at `k` is a place where the pattern matches. */
  lemma BlankLineMatches(s: string, k: nat, j: nat)
    requires BlankLineAt(s, k, j)
    ensures SeparatorEnd(s, k).Some?
  {
    var e := SpaceRunEnd(s, k + 1);
    assert IsSpace(s[j]);
    assert j < e;
    assert LastNewline(s, k + 1, e).Some?;
  }

  /**
    * The split from piece start `p`, trying the pattern at `q`: pieces are
    * cut at the leftmost match, and the search resumes after it.
    */
  function SplitFrom(s: string, p: nat, q: nat): (r: seq<string>)
    requires p <= q <= |s|
    ensures |r| >= 1
    decreases |s| - q
  {
    if q == |s| then [s[p..]]
    else
      match SeparatorEnd(s, q)
      case Some(e) => [s[p..q]] + SplitFrom(s, e, e)
      case None => SplitFrom(s, p, q + 1)
  }

  /** The separators the split cut out, in order. */
  function SeparatorsFrom(s: string, p: nat, q: nat): (r: seq<string>)
    requires p <= q <= |s|
    ensures forall i :: 0 <= i < |r| ==> IsSeparator(r[i])
    decreases |s| - q
  {
    if q == |s| then []
    else
      match SeparatorEnd(s, q)
      case Some(e) => [s[q..e]] + SeparatorsFrom(s, e, e)
      case None => SeparatorsFrom(s, p, q + 1)
  }

  /** `content.split(/\n\s*\n/)`. */
  function Split(s: string): seq<string> {
    SplitFrom(s, 0, 0)
  }

  /** Putting the separators back between the pieces gives the text again. */
  lemma {:induction false} SplitFromReassembles(s: string, p: nat, q: nat)
    requires p <= q <= |s|
    ensures |SeparatorsFrom(s, p, q)| + 1 == |SplitFrom(s, p, q)|
    ensures Weave(SplitFrom(s, p, q), SeparatorsFrom(s, p, q)) == s[p..]
    decreases |s| - q
  {
    if q < |s| {
      match SeparatorEnd(s, q)
      case Some(e) =>
        SplitFromReassembles(s, e, e);
        ReassembleAtSeparator(s, p, q, e, SplitFrom(s, e, e), SeparatorsFrom(s, e, e));
      case None =>
        SplitFromReassembles(s, p, q + 1);
    }
  }

  /** A match at `q` adds one piece and one separator in front of what the rest of the split rebuilds. */
  lemma ReassembleAtSeparator(s: string, p: nat, q: nat, e: nat, pieces: seq<string>, seps: seq<string>)
    requires p <= q <= e <= |s| && |pieces| == |seps| + 1 && Weave(pieces, seps) == s[e..]
    ensures Weave([s[p..q]] + pieces, [s[q..e]] + seps) == s[p..]
  {
    WeaveCons(s[p..q], s[q..e], pieces, seps);
    SliceSplit(s, q, e);
    SliceSplit(s, p, q);
    ConcatAssoc(s[p..q], s[q..e], s[e..]);
  }

  /** Every piece of the split is free of blank lines: the pattern matched wherever one began. */
  lemma {:induction false} SplitFromNoBlank(s: string, p: nat, q: nat)
    requires p <= q <= |s|
    requires forall k :: p <= k < q ==> SeparatorEnd(s, k).None?
    ensures forall i :: 0 <= i < |SplitFrom(s, p, q)| ==> NoBlankLine(SplitFrom(s, p, q)[i])
    decreases |s| - q
  {
    var r := SplitFrom(s, p, q);
    if q == |s| {
      PieceNoBlank(s, p, q);
      assert s[p..q] == s[p..];
    } else {
      match SeparatorEnd(s, q)
      case Some(e) =>
        PieceNoBlank(s, p, q);
        SplitFromNoBlank(s, e, e);
      case None =>
        SplitFromNoBlank(s, p, q + 1);
    }
  }

  /** A piece `s[p..q]` inside which the pattern never matched holds no blank line. */
  lemma PieceNoBlank(s: string, p: nat, q: nat)
    requires p <= q <= |s|
    requires forall k :: p <= k < q ==> SeparatorEnd(s, k).None?
    ensures NoBlankLine(s[p..q])
  {
    var t := s[p..q];
    forall i: nat, j: nat
      ensures BlankLineAt(t, i, j) ==> p <= p + i < q && SeparatorEnd(s, p + i).Some?
    {
      if BlankLineAt(t, i, j) {
        assert BlankLineAt(s, p + i, p + j);
        BlankLineMatches(s, p + i, p + j);
      }
    }
  }

  /**
    * The split of a text: woven back with its separators it is the text,
    * every separator is a blank-line run, and no piece holds a blank line.
    */
  lemma SplitCharacterised(s: string)
    ensures |SeparatorsFrom(s, 0, 0)| + 1 == |Split(s)|
    ensures Weave(Split(s), SeparatorsFrom(s, 0, 0)) == s
    ensures forall i :: 0 <= i < |Split(s)| ==> NoBlankLine(Split(s)[i])
  {
    SplitFromReassembles(s, 0, 0);
    SplitFromNoBlank(s, 0, 0);
  }

  // ------------------------------------------------------------------
  // `.filter(c => c.length > 50)`: the chunks worth remembering
  // ------------------------------------------------------------------

  const MinChunkLength: nat := 50

  predicate LongEnough(c: string) {
    Utf16Length(c) > MinChunkLength
  }

  /** The pieces longer than 50 code units, in order. */
  function KeepLong(pieces: seq<string>): seq<string> {
    if |pieces| == 0 then []
    else
      var last := pieces[|pieces| - 1];
      KeepLong(pieces[..|pieces| - 1]) + (if LongEnough(last) then [last] else [])
  }

  lemma {:induction false} KeepLongMembers(pieces: seq<string>)
    ensures forall c :: c in KeepLong(pieces) <==> c in pieces && LongEnough(c)
  {
    if |pieces| > 0 {
      KeepLongMembers(pieces[..|pieces| - 1]);
      assert pieces == pieces[..|pieces| - 1] + [pieces[|pieces| - 1]];
    }
  }

  /** The filter works piece by piece: it keeps the order and the repeats of what it keeps. */
  lemma {:induction false} KeepLongConcat(a: seq<string>, b: seq<string>)
    ensures KeepLong(a + b) == KeepLong(a) + KeepLong(b)
    decreases |b|
  {
    if |b| == 0 {
      assert a + b == a;
    } else {
      var init := b[..|b| - 1];
      assert (a + b)[..|a + b| - 1] == a + init;
      KeepLongConcat(a, init);
    }
  }

  /** The chunks `addDocument` embeds. */
  function Chunks(content: string): seq<string> {
    KeepLong(Split(content))
  }

  /** A chunk is a paragraph of the document, holds no blank line, and is longer than 50 code units. */
  lemma ChunksSound(content: string)
    ensures forall c :: c in Chunks(content) ==> c in Split(content) && NoBlankLine(c) && LongEnough(c)
  {
    SplitCharacterised(content);
    KeepLongMembers(Split(content));
  }

  // ------------------------------------------------------------------
  // The store and ingestion
  // ------------------------------------------------------------------

  /** A remembered paragraph. */
  datatype Chunk = Chunk(id: string, source: string, content: string, embedding: seq<real>)

  /** `getEmbedding`: the model's vector, empty when the call fails or yields none. */
  type Embedder = string -> seq<real>
  /** `uuidv4`, as the identifier given to the entry stored at a position. */
  type IdSource = nat -> string

  /**
    * The entries `addDocument` appends for `texts` to a store holding `at`
    * entries: one per text whose embedding is not empty.
    */
  function Ingest(filename: string, texts: seq<string>, embed: Embedder, newId: IdSource, at: nat): seq<Chunk>
  {
    if |texts| == 0 then []
    else if |embed(texts[0])| > 0 then
      [Chunk(newId(at), filename, texts[0], embed(texts[0]))] + Ingest(filename, texts[1..], embed, newId, at + 1)
    else Ingest(filename, texts[1..], embed, newId, at)
  }

  /** The texts whose embedding is not empty, in order. */
  function Embedded(texts: seq<string>, embed: Embedder): seq<string> {
    if |texts| == 0 then []
    else (if |embed(texts[0])| > 0 then [texts[0]] else []) + Embedded(texts[1..], embed)
  }

  /**
    * What ingestion stores: exactly the embedded texts, in order, each under
    * the document's name with its own embedding and the identifier for its
    * position.
    */
  lemma {:induction false} IngestShape(filename: string, texts: seq<string>, embed: Embedder, newId: IdSource, at: nat)
    ensures var r := Ingest(filename, texts, embed, newId, at);
      |r| == |Embedded(texts, embed)| <= |texts|
      && forall i :: 0 <= i < |r| ==>
        r[i].content == Embedded(texts, embed)[i] && r[i].source == filename
        && r[i].embedding == embed(r[i].content) && |r[i].embedding| > 0 && r[i].id == newId(at + i)
  {
    IngestLength(filename, texts, embed, newId, at);
    forall i | 0 <= i < |Ingest(filename, texts, embed, newId, at)| {
      IngestEntry(filename, texts, embed, newId, at, i);
    }
  }

  lemma {:induction false} IngestLength(filename: string, texts: seq<string>, embed: Embedder, newId: IdSource, at: nat)
    ensures |Ingest(filename, texts, embed, newId, at)| == |Embedded(texts, embed)| <= |texts|
  {
    if |texts| > 0 {
      IngestLength(filename, texts[1..], embed, newId, if |embed(texts[0])| > 0 then at + 1 else at);
    }
  }

  lemma {:induction false} IngestEntry(filename: string, texts: seq<string>, embed: Embedder, newId: IdSource, at: nat, i: nat)
    requires i < |Ingest(filename, texts, embed, newId, at)|
    ensures i < |Embedded(texts, embed)|
    ensures var c := Ingest(filename, texts, embed, newId, at)[i];
      c.content == Embedded(texts, embed)[i] && c.source == filename
      && c.embedding == embed(c.content) && |c.embedding| > 0 && c.id == newId(at + i)
  {
    var t, rest := texts[0], texts[1..];
    if |embed(t)| > 0 {
      assert Ingest(filename, texts, embed, newId, at)
        == [Chunk(newId(at), filename, t, embed(t))] + Ingest(filename, rest, embed, newId, at + 1);
      assert Embedded(texts, embed) == [t] + Embedded(rest, embed);
      if i > 0 {
        IngestEntry(filename, rest, embed, newId, at + 1, i - 1);
      }
    } else {
      assert Ingest(filename, texts, embed, newId, at) == Ingest(filename, rest, embed, newId, at);
      assert Embedded(texts, embed) == Embedded(rest, embed);
      IngestEntry(filename, rest, embed, newId, at, i);
    }
  }

  /** The distinct document names of a store. */
  function Sources(ks: seq<Chunk>): set<string> {
    if |ks| == 0 then {} else Sources(ks[..|ks| - 1]) + {ks[|ks| - 1].source}
  }

  lemma {:induction false} SourcesMembers(ks: seq<Chunk>)
    ensures forall name :: name in Sources(ks) <==> exists i :: 0 <= i < |ks| && ks[i].source == name
  {
    if |ks| > 0 {
      var init := ks[..|ks| - 1];
      SourcesMembers(init);
      forall name | name in Sources(init)
        ensures exists i :: 0 <= i < |ks| && ks[i].source == name
      {
        var i :| 0 <= i < |init| && init[i].source == name;
        assert ks[i] == init[i];
      }
      forall i | 0 <= i < |ks| - 1
        ensures ks[i].source in Sources(init)
      {
        assert ks[i] == init[i];
      }
    }
  }

  /** There are never more documents than chunks, and at least one when there is a chunk. */
  lemma {:induction false} SourcesBound(ks: seq<Chunk>)
    ensures |Sources(ks)| <= |ks|
    ensures |ks| > 0 ==> |Sources(ks)| > 0
  {
    if |ks| > 0 {
      SourcesBound(ks[..|ks| - 1]);
      assert ks[|ks| - 1].source in Sources(ks);
    }
  }

  /** The documents of two stores together are the documents of each. */
  lemma {:induction false} SourcesConcat(a: seq<Chunk>, b: seq<Chunk>)
    ensures Sources(a + b) == Sources(a) + Sources(b)
  {
    if |b| == 0 {
      assert a + b == a;
    } else {
      var init := b[..|b| - 1];
      assert (a + b)[..|a + b| - 1] == a + init;
      SourcesConcat(a, init);
    }
  }

  /** Every entry ingested for a document carries its name. */
  lemma {:induction false} SourcesOfIngest(filename: string, texts: seq<string>, embed: Embedder, newId: IdSource, at: nat)
    ensures var added := Ingest(filename, texts, embed, newId, at);
      Sources(added) == if |added| > 0 then {filename} else {}
  {
    if |texts| > 0 {
      var t, rest := texts[0], texts[1..];
      if |embed(t)| > 0 {
        var c := Chunk(newId(at), filename, t, embed(t));
        SourcesOfIngest(filename, rest, embed, newId, at + 1);
        SourcesConcat([c], Ingest(filename, rest, embed, newId, at + 1));
        assert [c][..0] == [];
      } else {
        SourcesOfIngest(filename, rest, embed, newId, at);
      }
    }
  }

  /** Ingesting a document adds its name to the documents exactly when some chunk of it was stored. */
  lemma SourcesAfterIngest(ks: seq<Chunk>, filename: string, texts: seq<string>, embed: Embedder, newId: IdSource)
    ensures var added := Ingest(filename, texts, embed, newId, |ks|);
      Sources(ks + added) == Sources(ks) + (if |added| > 0 then {filename} else {})
  {
    SourcesConcat(ks, Ingest(filename, texts, embed, newId, |ks|));
    SourcesOfIngest(filename, texts, embed, newId, |ks|);
  }

  // ------------------------------------------------------------------
  // Ranking: `map` to scores, `sort` by descending score, `slice`, `filter`
  // ------------------------------------------------------------------

  /** A stored entry with its similarity to the query. */
  datatype Scored = Scored(chunk: Chunk, score: real)

  /** `compute-cosine-similarity`: a number, or `null`/`NaN` (as `None`) when it has none. */
  type Similarity = (seq<real>, seq<real>) -> Option<real>

  /** `similarity(...) || 0`. */
  function ScoreOf(o: Option<real>): real {
    match o
    case None => 0.0
    case Some(v) => v
  }

  /** `knowledge.map(chunk => ({...chunk, score}))`. */
  function Score(ks: seq<Chunk>, query: seq<real>, sim: Similarity): (r: seq<Scored>)
    ensures |r| == |ks|
  {
    if |ks| == 0 then []
    else [Scored(ks[0], ScoreOf(sim(ks[0].embedding, query)))] + Score(ks[1..], query, sim)
  }

  predicate Descending(s: seq<Scored>) {
    forall i, j :: 0 <= i < j < |s| ==> s[i].score >= s[j].score
  }

  /** Places `x` after every entry scoring at least as much. */
  function Insert(s: seq<Scored>, x: Scored): (r: seq<Scored>)
    ensures |r| == |s| + 1
  {
    if |s| == 0 then [x]
    else if s[|s| - 1].score >= x.score then s + [x]
    else Insert(s[..|s| - 1], x) + [s[|s| - 1]]
  }

  lemma {:induction false} InsertPermutes(s: seq<Scored>, x: Scored)
    ensures multiset(Insert(s, x)) == multiset(s) + multiset{x}
  {
    if |s| > 0 && s[|s| - 1].score < x.score {
      InsertPermutes(s[..|s| - 1], x);
      assert s == s[..|s| - 1] + [s[|s| - 1]];
    }
  }

  /**
    * `scored.sort((a, b) => b.score - a.score)`: the stable sort by
    * descending score, as an insertion sort.
    */
  function SortByScore(s: seq<Scored>): (r: seq<Scored>)
    ensures |r| == |s|
  {
    if |s| == 0 then [] else Insert(SortByScore(s[..|s| - 1]), s[|s| - 1])
  }

  lemma {:induction false} InsertDescending(s: seq<Scored>, x: Scored)
    requires Descending(s)
    ensures Descending(Insert(s, x))
  {
    if |s| > 0 && s[|s| - 1].score < x.score {
      var init := s[..|s| - 1];
      var last := s[|s| - 1];
      InsertDescending(init, x);
      InsertPermutes(init, x);
      var r := Insert(init, x);
      forall k | 0 <= k < |r|
        ensures r[k].score >= last.score
      {
        assert r[k] in multiset(init) + multiset{x};
        if r[k] in multiset(init) {
          var i :| 0 <= i < |init| && init[i] == r[k];
        }
      }
    }
  }

  /** The entries scoring exactly `v`, in order. */
  function WithScore(s: seq<Scored>, v: real): seq<Scored> {
    if |s| == 0 then []
    else WithScore(s[..|s| - 1], v) + (if s[|s| - 1].score == v then [s[|s| - 1]] else [])
  }

  lemma WithScoreSnoc(s: seq<Scored>, y: Scored, v: real)
    ensures WithScore(s + [y], v) == WithScore(s, v) + (if y.score == v then [y] else [])
  {
    assert (s + [y])[..|s|] == s;
  }

  lemma {:induction false} InsertStable(s: seq<Scored>, x: Scored, v: real)
    ensures WithScore(Insert(s, x), v) == WithScore(s, v) + (if x.score == v then [x] else [])
  {
    if |s| == 0 {
      WithScoreSnoc([], x, v);
      assert [x] == [] + [x];
    } else if s[|s| - 1].score >= x.score {
      WithScoreSnoc(s, x, v);
    } else {
      var init, last := s[..|s| - 1], s[|s| - 1];
      assert Insert(s, x) == Insert(init, x) + [last];
      assert s == init + [last];
      InsertStable(init, x, v);
      WithScoreSnoc(Insert(init, x), last, v);
      WithScoreSnoc(init, last, v);
      if x.score == v {
        assert last.score != v;
      }
    }
  }

  /** The sort keeps every entry, as often as it occurs. */
  lemma {:induction false} SortPermutes(s: seq<Scored>)
    ensures multiset(SortByScore(s)) == multiset(s)
  {
    if |s| > 0 {
      SortPermutes(s[..|s| - 1]);
      InsertPermutes(SortByScore(s[..|s| - 1]), s[|s| - 1]);
      assert s == s[..|s| - 1] + [s[|s| - 1]];
    }
  }

  /** The sort puts higher scores first. */
  lemma {:induction false} SortDescends(s: seq<Scored>)
    ensures Descending(SortByScore(s))
  {
    if |s| > 0 {
      SortDescends(s[..|s| - 1]);
      InsertDescending(SortByScore(s[..|s| - 1]), s[|s| - 1]);
    }
  }

  /** The sort is stable: entries with equal scores keep their order. */
  lemma {:induction false} SortStable(s: seq<Scored>, v: real)
    ensures WithScore(SortByScore(s), v) == WithScore(s, v)
  {
    if |s| > 0 {
      var init, last := s[..|s| - 1], s[|s| - 1];
      assert SortByScore(s) == Insert(SortByScore(init), last);
      SortStable(init, v);
      InsertStable(SortByScore(init), last, v);
      assert s == init + [last];
      WithScoreSnoc(init, last, v);
    }
  }

  /** `slice(0, n)`'s end: a negative `n` counts back from the end. */
  function SliceEnd(n: int, len: nat): (e: nat)
    ensures e <= len
    ensures n >= 0 ==> e == if n <= len then n else len
    ensures n < 0 ==> e == if len + n >= 0 then len + n else 0
  {
    if n < 0 then (if len + n >= 0 then len + n else 0)
    else if n <= len then n else len
  }

  const Threshold: real := 0.5

  /** `filter(r => r.score > 0.5)`. */
  function Relevant(s: seq<Scored>): (r: seq<Scored>)
    ensures |r| <= |s|
  {
    if |s| == 0 then []
    else
      var last := s[|s| - 1];
      Relevant(s[..|s| - 1]) + (if last.score > Threshold then [last] else [])
  }

  lemma {:induction false} RelevantMembers(s: seq<Scored>)
    ensures forall x :: x in Relevant(s) <==> x in s && x.score > Threshold
  {
    if |s| > 0 {
      RelevantMembers(s[..|s| - 1]);
      assert s == s[..|s| - 1] + [s[|s| - 1]];
    }
  }

  lemma {:induction false} RelevantKeepsOrder(s: seq<Scored>)
    requires Descending(s)
    ensures Descending(Relevant(s))
  {
    if |s| > 0 {
      var init := s[..|s| - 1];
      RelevantKeepsOrder(init);
      RelevantMembers(init);
      var r := Relevant(init);
      forall k | 0 <= k < |r|
        ensures r[k].score >= s[|s| - 1].score
      {
        var i :| 0 <= i < |init| && init[i] == r[k];
      }
    }
  }

  lemma {:induction false} RelevantSubMultiset(s: seq<Scored>)
    ensures multiset(Relevant(s)) <= multiset(s)
  {
    if |s| > 0 {
      RelevantSubMultiset(s[..|s| - 1]);
      assert s == s[..|s| - 1] + [s[|s| - 1]];
    }
  }

  /** The filter works entry by entry: it keeps the order and the repeats of what it keeps. */
  lemma {:induction false} RelevantConcat(a: seq<Scored>, b: seq<Scored>)
    ensures Relevant(a + b) == Relevant(a) + Relevant(b)
    decreases |b|
  {
    if |b| == 0 {
      assert a + b == a;
    } else {
      var init := b[..|b| - 1];
      assert (a + b)[..|a + b| - 1] == a + init;
      RelevantConcat(a, init);
    }
  }

  /** A list whose every entry is above the threshold passes the filter whole. */
  lemma {:induction false} RelevantAll(s: seq<Scored>)
    requires forall i :: 0 <= i < |s| ==> s[i].score > Threshold
    ensures Relevant(s) == s
  {
    if |s| > 0 {
      RelevantAll(s[..|s| - 1]);
      assert s == s[..|s| - 1] + [s[|s| - 1]];
    }
  }

  /** The sorted list, cut at `maxResults`, and only the entries above the threshold. */
  function Top(ks: seq<Chunk>, query: seq<real>, sim: Similarity, maxResults: int): seq<Scored> {
    var sorted := SortByScore(Score(ks, query, sim));
    Relevant(sorted[..SliceEnd(maxResults, |sorted|)])
  }

  /** The selection holds at most `maxResults` entries, when that is not negative, and never more than are stored. */
  lemma TopBounded(ks: seq<Chunk>, query: seq<real>, sim: Similarity, maxResults: int)
    ensures |Top(ks, query, sim, maxResults)| <= |ks|
    ensures maxResults >= 0 ==> |Top(ks, query, sim, maxResults)| <= maxResults
    ensures |Top(ks, query, sim, DefaultMaxResults)| <= DefaultMaxResults
  {
  }

  /** The selection is in descending order of score. */
  lemma TopDescending(ks: seq<Chunk>, query: seq<real>, sim: Similarity, maxResults: int)
    ensures Descending(Top(ks, query, sim, maxResults))
  {
    var sorted := SortByScore(Score(ks, query, sim));
    SortDescends(Score(ks, query, sim));
    RelevantKeepsOrder(sorted[..SliceEnd(maxResults, |sorted|)]);
  }

  /** Every scored entry is a stored entry with its own score. */
  lemma {:induction false} ScoredEntry(ks: seq<Chunk>, query: seq<real>, sim: Similarity, t: Scored)
    requires t in multiset(Score(ks, query, sim))
    ensures t.chunk in ks && t.score == ScoreOf(sim(t.chunk.embedding, query))
  {
    var head := Scored(ks[0], ScoreOf(sim(ks[0].embedding, query)));
    if t != head {
      assert t in multiset(Score(ks[1..], query, sim));
      ScoredEntry(ks[1..], query, sim, t);
    }
  }

  /** None is selected more often than it is stored. */
  lemma TopSubMultiset(ks: seq<Chunk>, query: seq<real>, sim: Similarity, maxResults: int)
    ensures multiset(Top(ks, query, sim, maxResults)) <= multiset(Score(ks, query, sim))
  {
    var scored := Score(ks, query, sim);
    var sorted := SortByScore(scored);
    var cut := sorted[..SliceEnd(maxResults, |sorted|)];
    assert multiset(Relevant(cut)) <= multiset(cut) by {
      RelevantSubMultiset(cut);
    }
    assert multiset(cut) <= multiset(scored) by {
      SortPermutes(scored);
      assert sorted == cut + sorted[|cut|..];
    }
  }

  /** Every selected entry is a stored entry with its own score, above the threshold. */
  lemma TopFromStore(ks: seq<Chunk>, query: seq<real>, sim: Similarity, maxResults: int)
    ensures forall t :: t in Top(ks, query, sim, maxResults) ==>
      t.score > Threshold && t.chunk in ks && t.score == ScoreOf(sim(t.chunk.embedding, query))
  {
    var sorted := SortByScore(Score(ks, query, sim));
    var top := Top(ks, query, sim, maxResults);
    TopSubMultiset(ks, query, sim, maxResults);
    RelevantMembers(sorted[..SliceEnd(maxResults, |sorted|)]);
    forall t | t in top
      ensures t.chunk in ks && t.score == ScoreOf(sim(t.chunk.embedding, query))
    {
      assert t in multiset(top);
      ScoredEntry(ks, query, sim, t);
    }
  }

  /** What lies beyond the `maxResults` cut never outscores a selected entry. */
  lemma TopIsBest(ks: seq<Chunk>, query: seq<real>, sim: Similarity, maxResults: int)
    ensures var sorted := SortByScore(Score(ks, query, sim));
      var cut := SliceEnd(maxResults, |sorted|);
      forall i, t :: cut <= i < |sorted| && t in Top(ks, query, sim, maxResults) ==> sorted[i].score <= t.score
  {
    var sorted := SortByScore(Score(ks, query, sim));
    SortDescends(Score(ks, query, sim));
    var cut := SliceEnd(maxResults, |sorted|);
    RelevantMembers(sorted[..cut]);
    forall i, t | cut <= i < |sorted| && t in Top(ks, query, sim, maxResults)
      ensures sorted[i].score <= t.score
    {
      var j :| 0 <= j < cut && sorted[..cut][j] == t;
    }
  }

  /**
    * An entry above the threshold is left out only when the selection is
    * full: it then holds as many entries as the cut, each scoring at least
    * as much as the one left out.
    */
  lemma TopComplete(ks: seq<Chunk>, query: seq<real>, sim: Similarity, maxResults: int, t: Scored)
    requires t in Score(ks, query, sim) && t.score > Threshold
    requires t !in Top(ks, query, sim, maxResults)
    ensures |Top(ks, query, sim, maxResults)| == SliceEnd(maxResults, |ks|)
    ensures forall u :: u in Top(ks, query, sim, maxResults) ==> u.score >= t.score
  {
    var scored := Score(ks, query, sim);
    var sorted := SortByScore(scored);
    var cut := SliceEnd(maxResults, |sorted|);
    SortPermutes(scored);
    SortDescends(scored);
    RelevantMembers(sorted[..cut]);
    assert t in multiset(sorted) by {
      assert t in multiset(scored);
    }
    forall i | 0 <= i < cut
      ensures sorted[i] != t
    {
      assert sorted[..cut][i] == sorted[i];
    }
    var j :| 0 <= j < |sorted| && sorted[j] == t;
    forall i | 0 <= i < cut
      ensures sorted[..cut][i].score > Threshold
    {
      assert sorted[..cut][i] == sorted[i];
    }
    RelevantAll(sorted[..cut]);
  }

  /** A non-empty selection's first entry is a stored entry above the threshold, and the cut keeps something. */
  lemma TopWitness(ks: seq<Chunk>, query: seq<real>, sim: Similarity, maxResults: int)
    requires |Top(ks, query, sim, maxResults)| > 0
    ensures var t := Top(ks, query, sim, maxResults)[0]; t in Score(ks, query, sim) && t.score > Threshold
    ensures SliceEnd(maxResults, |ks|) > 0
  {
    var top := Top(ks, query, sim, maxResults);
    TopSubMultiset(ks, query, sim, maxResults);
    TopFromStore(ks, query, sim, maxResults);
    assert top[0] in multiset(Score(ks, query, sim));
  }

  /**
    * Nothing is selected exactly when the cut keeps nothing or no stored
    * entry scores above the threshold.
    */
  lemma TopEmptyIff(ks: seq<Chunk>, query: seq<real>, sim: Similarity, maxResults: int)
    ensures |Top(ks, query, sim, maxResults)| == 0 <==>
      SliceEnd(maxResults, |ks|) == 0 || forall t :: t in Score(ks, query, sim) ==> t.score <= Threshold
  {
    if |Top(ks, query, sim, maxResults)| > 0 {
      TopWitness(ks, query, sim, maxResults);
    } else if exists t :: t in Score(ks, query, sim) && t.score > Threshold {
      var t :| t in Score(ks, query, sim) && t.score > Threshold;
      TopComplete(ks, query, sim, maxResults, t);
    }
  }

  // ------------------------------------------------------------------
  // Formatting the context
  // ------------------------------------------------------------------

  const ContextHead: string := "[Context from "
  const ContextMid: string := "]:\n"
  const ContextSeparator: string := "\n\n"
  const DefaultMaxResults: int := 3

  /** `[Context from ${c.source}]:\n${c.content}`. */
  function Cite(c: Chunk): (r: string)
    ensures |r| > 0
  {
    ContextHead + c.source + ContextMid + c.content
  }

  function Cites(top: seq<Scored>): (r: seq<string>)
    ensures |r| == |top|
  {
    if |top| == 0 then [] else [Cite(top[0].chunk)] + Cites(top[1..])
  }

  /** Citation `i` is that of entry `i`. */
  lemma {:induction false} CitesEntry(top: seq<Scored>, i: nat)
    requires i < |top|
    ensures Cites(top)[i] == Cite(top[i].chunk)
  {
    if i > 0 {
      CitesEntry(top[1..], i - 1);
    }
  }

  /** Joining non-empty parts gives a text that starts with the first part. */
  lemma {:induction false} JoinStartsWithFirst(parts: seq<string>, sep: string)
    requires |parts| > 0
    ensures |Join(parts, sep)| >= |parts[0]| && Join(parts, sep)[..|parts[0]|] == parts[0]
  {
    if |parts| > 1 {
      assert Join(parts, sep) == parts[0] + (sep + Join(parts[1..], sep));
    }
  }

  /** A snapshot of the usage counters `getStats` reports. */
  datatype Stats = Stats(documents: nat, chunks: nat)

  /** The entry of the knowledge graph `getGraphData` reports for a chunk. */
  datatype GraphNode = GraphNode(id: string, source: string, preview: string)

  const PreviewLength: nat := 50
  const Ellipsis: string := "..."

  /** `content.substring(0, 50) + "..."`: the longest prefix of the content within 50 UTF-16 code units, then an ellipsis. */
  function Preview(content: string): (r: string)
    ensures |Ellipsis| <= |r| && r[|r| - |Ellipsis|..] == Ellipsis
    ensures var head := r[..|r| - |Ellipsis|];
      |head| <= |content| && head == content[..|head|] && Utf16Length(head) <= PreviewLength
      && (|head| < |content| ==> Utf16Length(head) + Units(content[|head|]) > PreviewLength)
    ensures Utf16Length(content) <= PreviewLength ==> r == content + Ellipsis
  {
    TakeMaximal(content, PreviewLength);
    var head := Take(content, PreviewLength);
    assert (head + Ellipsis)[..|head|] == head;
    head + Ellipsis
  }

  function Graph(ks: seq<Chunk>): (r: seq<GraphNode>)
    ensures |r| == |ks|
  {
    if |ks| == 0 then [] else [GraphNode(ks[0].id, ks[0].source, Preview(ks[0].content))] + Graph(ks[1..])
  }

  lemma {:induction false} GraphEntry(ks: seq<Chunk>, i: nat)
    requires i < |ks|
    ensures Graph(ks)[i] == GraphNode(ks[i].id, ks[i].source, Preview(ks[i].content))
  {
    if i > 0 {
      GraphEntry(ks[1..], i - 1);
    }
  }

  class RagService {
    var knowledge: seq<Chunk>
    /** What the store file last received. */
    var persisted: seq<Chunk>

    /**
      * `init`: the store as parsed from its file, or empty when reading or
      * parsing fails.
      */
    constructor (stored: Option<seq<Chunk>>)
      ensures knowledge == (if stored.Some? then stored.value else []) && persisted == []
    {
      knowledge := if stored.Some? then stored.value else [];
      persisted := [];
    }

    /**
      * `addDocument`: embeds each chunk of the document in turn, appends an
      * entry for each one that got an embedding, saves the store and reports
      * how many chunks there were.
      */
    method AddDocument(filename: string, content: string, embed: Embedder, newId: IdSource) returns (count: nat)
      modifies this
      ensures count == |Chunks(content)|
      ensures knowledge == old(knowledge) + Ingest(filename, Chunks(content), embed, newId, |old(knowledge)|)
      ensures persisted == knowledge
    {
      var chunks := Chunks(content);
      Remember(filename, chunks, embed, newId);
      persisted := knowledge;
      count := |chunks|;
    }

    /** The ingestion loop of `addDocument`: one entry per chunk that gets an embedding. */
    method Remember(filename: string, chunks: seq<string>, embed: Embedder, newId: IdSource)
      modifies this
      ensures knowledge == old(knowledge) + Ingest(filename, chunks, embed, newId, |old(knowledge)|)
      ensures persisted == old(persisted)
    {
      ghost var base := knowledge;
      var i := 0;
      while i < |chunks|
        invariant 0 <= i <= |chunks| && persisted == old(persisted)
        invariant base + Ingest(filename, chunks, embed, newId, |base|)
          == knowledge + Ingest(filename, chunks[i..], embed, newId, |knowledge|)
      {
        var text := chunks[i];
        var embedding := embed(text);
        ghost var rest := chunks[i + 1..];
        assert chunks[i..] == [text] + rest;
        if |embedding| > 0 {
          var entry := Chunk(newId(|knowledge|), filename, text, embedding);
          assert Ingest(filename, chunks[i..], embed, newId, |knowledge|)
            == [entry] + Ingest(filename, rest, embed, newId, |knowledge| + 1);
          ConcatAssoc(knowledge, [entry], Ingest(filename, rest, embed, newId, |knowledge| + 1));
          knowledge := knowledge + [entry];
        } else {
          assert Ingest(filename, chunks[i..], embed, newId, |knowledge|)
            == Ingest(filename, rest, embed, newId, |knowledge|);
        }
        i := i + 1;
      }
    }

    /**
      * `constructContext`: the citations of the best entries above the
      * threshold, separated by a blank line; empty when nothing is stored,
      * the query has no embedding or nothing qualifies.
      */
    function ConstructContext(query: string, maxResults: int, embed: Embedder, sim: Similarity): (r: string)
      reads this
      ensures r == "" <==>
        |knowledge| == 0 || |embed(query)| == 0 || |Top(knowledge, embed(query), sim, maxResults)| == 0
      ensures r != "" ==>
        var best := Top(knowledge, embed(query), sim, maxResults)[0];
        |r| >= |Cite(best.chunk)| && r[..|Cite(best.chunk)|] == Cite(best.chunk)
      ensures r != "" ==> r == Join(Cites(Top(knowledge, embed(query), sim, maxResults)), ContextSeparator)
      ensures r == "" <==>
        |knowledge| == 0 || |embed(query)| == 0 || SliceEnd(maxResults, |knowledge|) == 0
        || forall t :: t in Score(knowledge, embed(query), sim) ==> t.score <= Threshold
    {
      if |knowledge| == 0 then ""
      else
        var q := embed(query);
        if |q| == 0 then ""
        else
          var top := Top(knowledge, q, sim, maxResults);
          TopEmptyIff(knowledge, q, sim, maxResults);
          if |top| == 0 then ""
          else
            JoinStartsWithFirst(Cites(top), ContextSeparator);
            Join(Cites(top), ContextSeparator)
    }

    /** `getStats`: the number of distinct documents and of chunks. */
    function GetStats(): (r: Stats)
      reads this
      ensures r.chunks == |knowledge| && r.documents <= r.chunks
      ensures r.chunks > 0 ==> r.documents > 0
      ensures r.documents == |set i | 0 <= i < |knowledge| :: knowledge[i].source|
    {
      SourcesBound(knowledge);
      SourcesMembers(knowledge);
      assert Sources(knowledge) == set i | 0 <= i < |knowledge| :: knowledge[i].source;
      Stats(|Sources(knowledge)|, |knowledge|)
    }

    /** `getGraphData`: one node per chunk, in store order, with a preview of its start. */
    function GetGraphData(): (r: seq<GraphNode>)
      reads this
      ensures |r| == |knowledge|
      ensures forall i :: 0 <= i < |r| ==>
        r[i].id == knowledge[i].id && r[i].source == knowledge[i].source
        && r[i].preview == Preview(knowledge[i].content)
    {
      var r := Graph(knowledge);
      assert forall i :: 0 <= i < |r| ==> r[i] == GraphNode(knowledge[i].id, knowledge[i].source, Preview(knowledge[i].content)) by {
        forall i | 0 <= i < |r| {
          GraphEntry(knowledge, i);
        }
      }
      r
    }
  }
}
