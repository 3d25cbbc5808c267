/**
 * The HGNC gene vocabulary: full-replacement reindexing against a search index and a
 * term cache, symbol lookup, and the placeholder distance.
 *
 * The search index and the term cache are modelled as in-memory stand-ins held by the
 * vocabulary object: the index is the sequence of documents it holds, the cache a map.
 * A ghost log records the calls the vocabulary makes on them, in order.
 */
module HgncVocabulary {
  import opened Wrappers
  import opened HgncQuery

  /** One indexed HGNC record: permanent id, approved symbol, name, previous and alias symbols. */
  datatype Document = Document(
    id: string,
    symbol: string,
    name: string,
    prevSymbols: seq<string>,
    aliasSymbols: seq<string>)

  /** The vocabulary term a lookup returns. */
  datatype Term = Term(id: string, name: string, symbol: string)

  function ToTerm(d: Document): Term
  {
    Term(d.id, d.name, d.symbol)
  }

  /** `d` is found by the symbol `k`: as its symbol, one of its previous symbols or one of its aliases. */
  predicate DocMatches(d: Document, k: string)
  {
    d.symbol == k || k in d.prevSymbols || k in d.aliasSymbols
  }

  /** Position of the first document found by `k`, in index order. */
  function FirstMatch(docs: seq<Document>, k: string): (r: Option<nat>)
    ensures r.Some? ==> r.value < |docs| && DocMatches(docs[r.value], k)
    ensures forall j :: 0 <= j < |docs| && (r.None? || j < r.value) ==> !DocMatches(docs[j], k)
  {
    if docs == [] then None
    else if DocMatches(docs[0], k) then Some(0)
    else
      match FirstMatch(docs[1..], k)
      case None => None
      case Some(i) => Some(i + 1)
  }

  /** The term a lookup of `k` yields on the index `docs`. */
  function Lookup(docs: seq<Document>, k: string): (r: Option<Term>)
    ensures r.None? <==> forall i :: 0 <= i < |docs| ==> !DocMatches(docs[i], k)
    ensures r.Some? ==>
      exists i :: 0 <= i < |docs| && DocMatches(docs[i], k) && r.value == ToTerm(docs[i])
        && forall j :: 0 <= j < i ==> !DocMatches(docs[j], k)
  {
    match FirstMatch(docs, k)
    case None => None
    case Some(i) => Some(ToTerm(docs[i]))
  }

  /** Lookup resolves overlapping matches by index order: the earlier batch wins. */
  lemma {:induction false} LookupAppend(a: seq<Document>, b: seq<Document>, k: string)
    ensures Lookup(a + b, k) == if Lookup(a, k).Some? then Lookup(a, k) else Lookup(b, k)
    decreases |a|
  {
    if a == [] {
      assert a + b == b;
    } else if DocMatches(a[0], k) {
      assert FirstMatch(a, k) == Some(0);
      assert (a + b)[0] == a[0];
      assert FirstMatch(a + b, k) == Some(0);
    } else {
      LookupAppend(a[1..], b, k);
      assert (a + b)[0] == a[0];
      assert (a + b)[1..] == a[1..] + b;
    }
  }

  // ---------------------------------------------------------------------------
  // Distance

  /** The sentinel every distance query returns. */
  const NoDistance: int := -1

  /** Distance between two (possibly null) symbols: a placeholder that never fails. */
  function StringDistance(a: Option<string>, b: Option<string>): (d: int)
    ensures d == NoDistance
  {
    NoDistance
  }

  /** Distance between two (possibly null) terms: the same placeholder. */
  function TermDistance(a: Option<Term>, b: Option<Term>): (d: int)
    ensures d == NoDistance
  {
    NoDistance
  }

  // ---------------------------------------------------------------------------
  // Reindex protocol

  /** A call made on the index or on the cache. */
  datatype Call = DeleteByQuery(query: string) | Add(batch: seq<Document>) | Commit | RemoveAll | Query(q: string)

  /** Which backend call fails during a reindex, if any. */
  datatype Fault = NoFault | DeleteFails | AddFails | CommitFails

  /** The query that matches every document. */
  const MatchAll: string := "*:*"

  /** Status codes of a reindex. */
  const Succeeded: int := 0
  const WriteFailed: int := 1
  const SourceUnreadable: int := 2

  /** The calls of a complete reindex of `docs`, in order. */
  function ProtocolCalls(docs: seq<Document>): seq<Call>
  {
    [DeleteByQuery(MatchAll), Add(docs), Commit, RemoveAll]
  }

  /** How many protocol calls are made when `fault` strikes: all up to and including the failing one. */
  function CallsMade(fault: Fault): nat
  {
    match fault
    case DeleteFails => 1
    case AddFails => 2
    case CommitFails => 3
    case NoFault => 4
  }

  /** The calls a reindex of `docs` makes under `fault`. */
  function ReindexCalls(docs: seq<Document>, fault: Fault): seq<Call>
  {
    ProtocolCalls(docs)[..CallsMade(fault)]
  }

  /**
   * The cache is cleared exactly when the whole protocol went through, and then only after
   * the commit; the index is cleared first and the batch is added once, after the clear.
   */
  lemma ReindexCallsOrder(docs: seq<Document>, fault: Fault)
    ensures RemoveAll in ReindexCalls(docs, fault) <==> fault == NoFault
    ensures fault == NoFault ==> ReindexCalls(docs, fault) == [DeleteByQuery(MatchAll), Add(docs), Commit, RemoveAll]
    ensures ReindexCalls(docs, fault)[0] == DeleteByQuery(MatchAll)
    ensures Add(docs) in ReindexCalls(docs, fault) <==> fault != DeleteFails
    ensures Commit in ReindexCalls(docs, fault) <==> fault == NoFault || fault == CommitFails
  {
    var calls := ReindexCalls(docs, fault);
    if fault == DeleteFails {
      assert calls == [DeleteByQuery(MatchAll)];
    } else if fault == AddFails {
      assert calls == [DeleteByQuery(MatchAll), Add(docs)];
    } else if fault == CommitFails {
      assert calls == [DeleteByQuery(MatchAll), Add(docs), Commit];
    } else {
      assert calls == ProtocolCalls(docs);
    }
  }

  /** What a lookup yields: the term or "not found", or the failure of the index query. */
  datatype LookupOutcome = Resolved(term: Option<Term>) | IndexUnavailable

  /** A vocabulary bound to its search index and its term cache. */
  class GeneNomenclature {
    /** The documents the search index holds, in insertion order. */
    var index: seq<Document>
    /** The term cache. */
    var cache: map<string, Term>
    /** Every call made on the index and the cache so far. */
    ghost var calls: seq<Call>

    constructor (index: seq<Document>, cache: map<string, Term>)
      ensures this.index == index && this.cache == cache && calls == []
    {
      this.index := index;
      this.cache := cache;
      calls := [];
    }

    /** deleteByQuery("*:*") on the index. */
    method DeleteAll(fails: bool) returns (ok: bool)
      modifies this
      ensures ok == !fails
      ensures index == (if ok then [] else old(index))
      ensures cache == old(cache) && calls == old(calls) + [DeleteByQuery(MatchAll)]
    {
      calls := calls + [DeleteByQuery(MatchAll)];
      ok := !fails;
      if ok {
        index := [];
      }
    }

    /** Bulk add of a batch of documents to the index. */
    method AddAll(batch: seq<Document>, fails: bool) returns (ok: bool)
      modifies this
      ensures ok == !fails
      ensures index == (if ok then old(index) + batch else old(index))
      ensures cache == old(cache) && calls == old(calls) + [Add(batch)]
    {
      calls := calls + [Add(batch)];
      ok := !fails;
      if ok {
        index := index + batch;
      }
    }

    /** Commit on the index. */
    method CommitIndex(fails: bool) returns (ok: bool)
      modifies this
      ensures ok == !fails
      ensures index == old(index) && cache == old(cache) && calls == old(calls) + [Commit]
    {
      calls := calls + [Commit];
      ok := !fails;
    }

    /** removeAll on the term cache. */
    method ClearCache()
      modifies this
      ensures cache == map[]
      ensures index == old(index) && calls == old(calls) + [RemoveAll]
    {
      calls := calls + [RemoveAll];
      cache := map[];
    }

    /**
     * Replaces the index by the documents parsed from the source (None when the source
     * cannot be read) and then clears the cache. `fault` says which backend call fails.
     */
    method Reindex(source: Option<seq<Document>>, fault: Fault) returns (status: int)
      modifies this
      ensures source.None? ==>
        status == SourceUnreadable && index == old(index) && cache == old(cache) && calls == old(calls)
      ensures source.Some? ==> calls == old(calls) + ReindexCalls(source.value, fault)
      ensures source.Some? ==> (status == Succeeded <==> fault == NoFault)
      ensures source.Some? && fault != NoFault ==> status == WriteFailed && cache == old(cache)
      ensures source.Some? && fault == NoFault ==> index == source.value && cache == map[]
      ensures source.Some? && fault == DeleteFails ==> index == old(index)
      ensures source.Some? && fault == AddFails ==> index == []
      ensures source.Some? && fault == CommitFails ==> index == source.value
    {
      if source.None? {
        return SourceUnreadable;
      }
      var docs := source.value;
      ghost var before := calls;
      var ok := DeleteAll(fault == DeleteFails);
      if !ok {
        assert calls == before + ReindexCalls(docs, fault);
        return WriteFailed;
      }
      ok := AddAll(docs, fault == AddFails);
      if !ok {
        assert calls == before + ReindexCalls(docs, fault);
        return WriteFailed;
      }
      assert index == docs;
      ok := CommitIndex(fault == CommitFails);
      if !ok {
        assert calls == before + ReindexCalls(docs, fault);
        return WriteFailed;
      }
      ClearCache();
      assert calls == before + ReindexCalls(docs, fault);
      status := Succeeded;
    }

    /**
     * The index's answer to a query: the first document, in index order, found by the
     * symbol the query asks for; no document when the query is not a symbol query.
     */
    method Search(q: string) returns (results: seq<Document>)
      ensures results ==
        match ParseTermQuery(q)
        case None => []
        case Some(k) => (match FirstMatch(index, k) case None => [] case Some(i) => [index[i]])
    {
      var key := ParseTermQuery(q);
      if key.None? {
        return [];
      }
      var k := key.value;
      var i := 0;
      while i < |index|
        invariant 0 <= i <= |index|
        invariant forall j :: 0 <= j < i ==> !DocMatches(index[j], k)
      {
        var d := index[i];
        if d.symbol == k || k in d.prevSymbols || k in d.aliasSymbols {
          return [d];
        }
        i := i + 1;
      }
      results := [];
    }

    /**
     * Looks up a symbol: queries the index with the escaped three-clause query and keeps
     * the first hit. The query is logged as sent whether or not it fails. `queryFails` says
     * that the index query fails; the lookup then reports the failure instead of "not found".
     */
    method GetTerm(symbol: string, queryFails: bool) returns (outcome: LookupOutcome)
      modifies this
      ensures calls == old(calls) + [Query(TermQuery(symbol))]
      ensures index == old(index) && cache == old(cache)
      ensures queryFails <==> outcome == IndexUnavailable
      ensures !queryFails ==> outcome == Resolved(Lookup(index, symbol))
    {
      var q := TermQuery(symbol);
      calls := calls + [Query(q)];
      if queryFails {
        return IndexUnavailable;
      }
      var results := Search(q);
      if results == [] {
        outcome := Resolved(None);
      } else {
        outcome := Resolved(Some(ToTerm(results[0])));
      }
    }
  }

  // ---------------------------------------------------------------------------
  // Reindex then lookup, with two records of the HGNC sample

  const Taar1: Document := Document("HGNC:17734", "TAAR1", "trace amine associated receptor 1", [], [])
  const Brachyury: Document := Document("HGNC:11515", "T", "T, brachyury homolog (mouse)", [], [])

  /** After a successful reindex, lookups of TAAR1 and T return their own records. */
  method ReindexThenLookup() returns (status: int, taar1: LookupOutcome, t: LookupOutcome)
    ensures status == Succeeded
    ensures taar1 == Resolved(Some(Term("HGNC:17734", "trace amine associated receptor 1", "TAAR1")))
    ensures t == Resolved(Some(Term("HGNC:11515", "T, brachyury homolog (mouse)", "T")))
  {
    var vocabulary := new GeneNomenclature([], map[]);
    status := vocabulary.Reindex(Some([Brachyury, Taar1]), NoFault);
    assert vocabulary.index == [Brachyury, Taar1];
    taar1 := vocabulary.GetTerm("TAAR1", false);
    assert !DocMatches(Brachyury, "TAAR1") && DocMatches(Taar1, "TAAR1");
    assert FirstMatch([Brachyury, Taar1], "TAAR1") == Some(1);
    assert Lookup([Brachyury, Taar1], "TAAR1") == Some(ToTerm(Taar1));
    t := vocabulary.GetTerm("T", false);
    assert DocMatches(Brachyury, "T");
    assert FirstMatch([Brachyury, Taar1], "T") == Some(0);
    assert Lookup([Brachyury, Taar1], "T") == Some(ToTerm(Brachyury));
  }

  // ---------------------------------------------------------------------------
  // The index stand-in of the lookup test, as written

  /** `needle` occurs in `hay` as a contiguous substring. */
  predicate Occurs(needle: string, hay: string)
  {
    exists i :: 0 <= i <= |hay| && needle <= hay[i..]
  }

  /** The stand-in's test: some field value of `d` occurs anywhere in the query text. */
  predicate SubstringMatches(d: Document, q: string)
  {
    Occurs(d.symbol, q)
    || (exists p :: p in d.prevSymbols && Occurs(p, q))
    || (exists a :: a in d.aliasSymbols && Occurs(a, q))
  }

  /** The stand-in's answer: the first document whose field value occurs in the query text. */
  function SubstringAnswer(docs: seq<Document>, q: string): (r: seq<Document>)
    ensures |r| <= 1
    ensures r == [] <==> forall i :: 0 <= i < |docs| ==> !SubstringMatches(docs[i], q)
    ensures r != [] ==>
      exists i :: 0 <= i < |docs| && r[0] == docs[i] && SubstringMatches(docs[i], q)
        && forall j :: 0 <= j < i ==> !SubstringMatches(docs[j], q)
  {
    if docs == [] then []
    else if SubstringMatches(docs[0], q) then [docs[0]]
    else
      var r := SubstringAnswer(docs[1..], q);
      assert forall i :: 1 <= i < |docs| ==> docs[i] == docs[1..][i - 1];
      if r == [] then r
      else
        var i :| 0 <= i < |docs[1..]| && r[0] == docs[1..][i] && SubstringMatches(docs[1..][i], q)
          && forall j :: 0 <= j < i ==> !SubstringMatches(docs[1..][j], q);
        assert r[0] == docs[i + 1] && forall j :: 0 <= j < i + 1 ==> !SubstringMatches(docs[j], q);
        r
  }

  /** The stand-in sees in the query for `k` every prefix of the escaped symbol. */
  lemma QueryHoldsEscapedPrefixes(k: string, needle: string)
    requires needle <= Escape(k)
    ensures Occurs(needle, TermQuery(k))
  {
    var f := Escape(k);
    ClausesLayout(f);
    var q := TermQuery(k);
    assert q[|SymbolPrefix|..][..|f|] == f;
    assert needle <= q[|SymbolPrefix|..];
  }

  /**
   * With T indexed before TAAR1, the stand-in answers the TAAR1 query with the record of T,
   * because "T" occurs in "symbol:TAAR1 ...", while field matching finds TAAR1.
   */
  lemma SubstringAnswerMisattributes()
    ensures SubstringAnswer([Brachyury, Taar1], TermQuery("TAAR1")) == [Brachyury]
    ensures Lookup([Brachyury, Taar1], "TAAR1") == Some(ToTerm(Taar1))
  {
    EscapePlain("TAAR1");
    QueryHoldsEscapedPrefixes("TAAR1", "T");
    assert SubstringMatches(Brachyury, TermQuery("TAAR1"));
    assert FirstMatch([Brachyury, Taar1], "TAAR1") == Some(1);
  }
}
