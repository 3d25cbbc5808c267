/**
 * Query construction for HGNC gene symbol lookups.
 *
 * A looked-up symbol is escaped for the classic Lucene query syntax (every reserved
 * character gets a backslash in front of it) and the escaped fragment is placed in
 * three field clauses joined by " OR ": symbol, prev_symbol, alias_symbol.
 *
 * Besides the escaper and the query builder, this module defines their inverses
 * (Unescape, ParseTermQuery) and proves the round trips, which give injectivity.
 */
module HgncQuery {
  import opened Wrappers

  /** The escape marker of the query syntax. */
  const EscapeMarker: char := '\\'

  /** Characters the query parser treats specially; each is escaped with EscapeMarker. */
  const Reserved: set<char> :=
    {'+', '-', '&', '|', '!', '(', ')', '{', '}', '[', ']', '^', '"', '~', '*', '?', ':', '\\', ' '}

  /** The escaped form of one character. */
  function EscapeChar(c: char): string
  {
    if c in Reserved then [EscapeMarker, c] else [c]
  }

  /** Escapes every reserved character of `s`, keeping all characters in input order. */
  function Escape(s: string): (e: string)
    ensures |s| <= |e| <= 2 * |s|
    ensures forall i :: 0 <= i < |e| ==> e[i] == EscapeMarker || e[i] in s
    decreases |s|
  {
    if s == [] then [] else EscapeChar(s[0]) + Escape(s[1..])
  }

  /** Removes the escape markers: a marker followed by any character stands for that character. */
  function Unescape(t: string): string
    decreases |t|
  {
    if t == [] then []
    else if t[0] == EscapeMarker && |t| >= 2 then [t[1]] + Unescape(t[2..])
    else [t[0]] + Unescape(t[1..])
  }

  /**
   * `t` is a sequence of units, each either a marker followed by a reserved character
   * or a single character that is not reserved: no reserved character stands bare.
   */
  predicate WellEscaped(t: string)
    decreases |t|
  {
    if t == [] then true
    else if t[0] == EscapeMarker then |t| >= 2 && t[1] in Reserved && WellEscaped(t[2..])
    else t[0] !in Reserved && WellEscaped(t[1..])
  }

  /** The field clauses of a query, in query order: symbol, prev_symbol, alias_symbol. */
  const SymbolPrefix: string := "symbol:"
  const PrevSymbolPrefix: string := " OR prev_symbol:"
  const AliasSymbolPrefix: string := " OR alias_symbol:"

  /** The three clauses over one (already escaped) fragment `f`. */
  function Clauses(f: string): string
  {
    SymbolPrefix + f + PrevSymbolPrefix + f + AliasSymbolPrefix + f
  }

  /** The query sent to the index when the symbol `k` is looked up. */
  function TermQuery(k: string): (q: string)
    ensures ParseTermQuery(q) == Some(k)
  {
    var f := Escape(k);
    ClausesLayout(f);
    EscapeUnescape(k);
    assert (|Clauses(f)| - FixedLength) / 3 == |f|;
    Clauses(f)
  }

  /** Number of characters of a query that do not belong to the three fragments. */
  const FixedLength: nat := |SymbolPrefix| + |PrevSymbolPrefix| + |AliasSymbolPrefix|

  /**
   * Recovers the looked-up symbol from a query, or None when `q` is not a query
   * TermQuery can produce.
   */
  function ParseTermQuery(q: string): (r: Option<string>)
    ensures r.Some? ==> Clauses(Escape(r.value)) == q
  {
    if |q| < FixedLength || (|q| - FixedLength) % 3 != 0 then None
    else
      var n := (|q| - FixedLength) / 3;
      var f := q[|SymbolPrefix|..|SymbolPrefix| + n];
      if Clauses(f) == q && WellEscaped(f) then
        UnescapeEscape(f);
        Some(Unescape(f))
      else None
  }

  // ---------------------------------------------------------------------------
  // Escaping: round trips, homomorphism, identity on plain symbols

  /** Unescaping an escaped string gives it back, and escaping leaves nothing reserved bare. */
  lemma {:induction false} EscapeUnescape(s: string)
    ensures WellEscaped(Escape(s))
    ensures Unescape(Escape(s)) == s
    decreases |s|
  {
    if s != [] {
      EscapeUnescape(s[1..]);
      var rest := Escape(s[1..]);
      var c := s[0];
      if c in Reserved {
        assert Escape(s) == [EscapeMarker, c] + rest;
        assert (Escape(s))[2..] == rest;
      } else {
        assert Escape(s) == [c] + rest;
        assert (Escape(s))[1..] == rest;
      }
    }
  }

  /** Escaping is onto the well-escaped strings: escaping the unescaped form gives it back. */
  lemma {:induction false} UnescapeEscape(t: string)
    requires WellEscaped(t)
    ensures Escape(Unescape(t)) == t
    decreases |t|
  {
    if t != [] {
      if t[0] == EscapeMarker {
        UnescapeEscape(t[2..]);
        assert Unescape(t) == [t[1]] + Unescape(t[2..]);
        assert (Unescape(t))[1..] == Unescape(t[2..]);
        assert t == [t[0], t[1]] + t[2..];
      } else {
        UnescapeEscape(t[1..]);
        assert Unescape(t) == [t[0]] + Unescape(t[1..]);
        assert (Unescape(t))[1..] == Unescape(t[1..]);
        assert t == [t[0]] + t[1..];
      }
    }
  }

  /** Different symbols never escape to the same fragment. */
  lemma EscapeInjective(a: string, b: string)
    requires Escape(a) == Escape(b)
    ensures a == b
  {
    EscapeUnescape(a);
    EscapeUnescape(b);
  }

  /** Escaping works character by character: it distributes over concatenation. */
  lemma {:induction false} EscapeConcat(a: string, b: string)
    ensures Escape(a + b) == Escape(a) + Escape(b)
    decreases |a|
  {
    if a == [] {
      assert a + b == b;
    } else {
      EscapeConcat(a[1..], b);
      assert (a + b)[1..] == a[1..] + b;
      assert (a + b)[0] == a[0];
    }
  }

  /** A symbol without reserved characters passes through unchanged. */
  lemma {:induction false} EscapePlain(s: string)
    requires forall i :: 0 <= i < |s| ==> s[i] !in Reserved
    ensures Escape(s) == s
    decreases |s|
  {
    if s != [] {
      EscapePlain(s[1..]);
      assert s == [s[0]] + s[1..];
    }
  }

  /** A string made only of reserved characters comes out with a marker before each of them. */
  lemma {:induction false} EscapeAllReserved(s: string)
    requires forall i :: 0 <= i < |s| ==> s[i] in Reserved
    ensures |Escape(s)| == 2 * |s|
    ensures forall i :: 0 <= i < |s| ==> Escape(s)[2 * i] == EscapeMarker
    ensures forall i :: 0 <= i < |s| ==> Escape(s)[2 * i + 1] == s[i]
    decreases |s|
  {
    if s != [] {
      EscapeAllReserved(s[1..]);
      var rest := Escape(s[1..]);
      assert Escape(s) == [EscapeMarker, s[0]] + rest;
      forall i | 1 <= i < |s|
        ensures Escape(s)[2 * i] == EscapeMarker && Escape(s)[2 * i + 1] == s[i]
      {
        assert Escape(s)[2 * i] == rest[2 * (i - 1)];
        assert Escape(s)[2 * i + 1] == rest[2 * (i - 1) + 1];
        assert s[i] == s[1..][i - 1];
      }
    }
  }

  // ---------------------------------------------------------------------------
  // The three-clause query

  /** A query is three fragments plus the fixed text, and its first fragment follows "symbol:". */
  lemma ClausesLayout(f: string)
    ensures |Clauses(f)| == FixedLength + 3 * |f|
    ensures Clauses(f)[|SymbolPrefix|..|SymbolPrefix| + |f|] == f
  {
    var q := Clauses(f);
    assert q == SymbolPrefix + (f + (PrevSymbolPrefix + f + AliasSymbolPrefix + f));
  }

  /** Query construction is injective: different symbols give different queries. */
  lemma TermQueryInjective(a: string, b: string)
    requires TermQuery(a) == TermQuery(b)
    ensures a == b
  {
  }

  /** For a symbol without reserved characters the query holds the symbol verbatim in all three clauses. */
  lemma TermQueryPlain(k: string)
    requires forall i :: 0 <= i < |k| ==> k[i] !in Reserved
    ensures TermQuery(k) == "symbol:" + k + " OR prev_symbol:" + k + " OR alias_symbol:" + k
  {
    EscapePlain(k);
  }

  /** The query for A1BG, and that it differs from the query for A1CF. */
  lemma A1bgQuery()
    ensures TermQuery("A1BG") == "symbol:A1BG OR prev_symbol:A1BG OR alias_symbol:A1BG"
    ensures TermQuery("A1BG") != "symbol:A1CF OR prev_symbol:A1CF OR alias_symbol:A1CF"
  {
    TermQueryPlain("A1BG");
    A1bgQueryText();
    assert "symbol:A1BG OR prev_symbol:A1BG OR alias_symbol:A1BG"[9] == 'B';
  }

  /** Solver aid for A1bgQuery: the plain three-clause query for A1BG, spelt out literally. */
  lemma A1bgQueryText()
    ensures "symbol:" + "A1BG" + " OR prev_symbol:" + "A1BG" + " OR alias_symbol:" + "A1BG"
      == "symbol:A1BG OR prev_symbol:A1BG OR alias_symbol:A1BG"
  {
    A1bgSymbolClause();
    A1bgPrevSymbolClause();
    A1bgAliasSymbolClause();
  }

  /** Solver aid: literal concatenation of the first clause of the A1BG query. */
  lemma A1bgSymbolClause()
    ensures "symbol:" + "A1BG" + " OR prev_symbol:" == "symbol:A1BG OR prev_symbol:"
  {
    assert "symbol:" + "A1BG" == "symbol:A1BG";
  }

  /** Solver aid: literal concatenation of the second clause of the A1BG query. */
  lemma A1bgPrevSymbolClause()
    ensures "symbol:A1BG OR prev_symbol:" + "A1BG" + " OR alias_symbol:"
      == "symbol:A1BG OR prev_symbol:A1BG OR alias_symbol:"
  {
    assert "symbol:A1BG OR prev_symbol:" + "A1BG" == "symbol:A1BG OR prev_symbol:A1BG";
  }

  /** Solver aid: literal concatenation of the third clause of the A1BG query. */
  lemma A1bgAliasSymbolClause()
    ensures "symbol:A1BG OR prev_symbol:A1BG OR alias_symbol:" + "A1BG"
      == "symbol:A1BG OR prev_symbol:A1BG OR alias_symbol:A1BG"
  {
  }

  /** The symbol the escaping test looks up: every character that test uses, each reserved. */
  const SpecialSymbol: string := "+-&&||!(){}[]^\"~*?:\\"

  /** Its escaped form: each character preceded by a backslash. */
  const EscapedSpecialSymbol: string :=
    "\\+\\-\\&\\&\\|\\|\\!\\(\\)\\{\\}\\[\\]\\^\\\"\\~\\*\\?\\:\\\\"

  /** The escaped form above, character by character: a marker, then the symbol's character. */
  lemma EscapedSpecialSymbolShape()
    ensures |EscapedSpecialSymbol| == 2 * |SpecialSymbol|
    ensures forall i :: 0 <= i < |SpecialSymbol| ==> EscapedSpecialSymbol[2 * i] == EscapeMarker
    ensures forall i :: 0 <= i < |SpecialSymbol| ==> EscapedSpecialSymbol[2 * i + 1] == SpecialSymbol[i]
  {
  }

  /** Two strings that both interleave a marker before each character of `s` are equal. */
  lemma MarkedUnique(e: string, e': string, s: string)
    requires |e| == 2 * |s| && |e'| == 2 * |s|
    requires forall i :: 0 <= i < |s| ==> e[2 * i] == EscapeMarker
    requires forall i :: 0 <= i < |s| ==> e[2 * i + 1] == s[i]
    requires forall i :: 0 <= i < |s| ==> e'[2 * i] == EscapeMarker
    requires forall i :: 0 <= i < |s| ==> e'[2 * i + 1] == s[i]
    ensures e == e'
  {
    forall j | 0 <= j < |e| ensures e[j] == e'[j] {
      var i := j / 2;
      assert 0 <= i < |s|;
      if j % 2 == 0 {
        assert j == 2 * i;
        assert e[2 * i] == e'[2 * i];
      } else {
        assert j == 2 * i + 1;
        assert e[2 * i + 1] == s[i] == e'[2 * i + 1];
      }
    }
  }

  /** Escaping the symbol of reserved characters gives the fully escaped form above. */
  lemma EscapeSpecialSymbol()
    ensures Escape(SpecialSymbol) == EscapedSpecialSymbol
  {
    EscapeAllReserved(SpecialSymbol);
    EscapedSpecialSymbolShape();
    MarkedUnique(Escape(SpecialSymbol), EscapedSpecialSymbol, SpecialSymbol);
  }

  /** The query for a symbol made of reserved characters escapes every one of them, in all three clauses. */
  lemma SpecialSymbolQuery()
    ensures TermQuery(SpecialSymbol) ==
      "symbol:" + EscapedSpecialSymbol + " OR prev_symbol:" + EscapedSpecialSymbol
      + " OR alias_symbol:" + EscapedSpecialSymbol
  {
    EscapeSpecialSymbol();
  }
}
