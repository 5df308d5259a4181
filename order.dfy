/** The order in which `construir_automato_lr0` tries the symbols of a state:
    the preferred symbols `x ( ) ,` first, then the remaining terminals in
    sorted order, then the non-terminals in sorted order. Python sorts strings
    by comparing code points from the left, a proper prefix coming first. */
module SymbolOrder {
  import opened GrammarModel

  /** Python's `<` on strings. */
  predicate Precedes(a: Symbol, b: Symbol)
    decreases |a|
  {
    |b| > 0 && (|a| == 0 || a[0] < b[0] || (a[0] == b[0] && Precedes(a[1..], b[1..])))
  }

  lemma {:induction false} PrecedesIrreflexive(a: Symbol)
    ensures !Precedes(a, a)
    decreases |a|
  {
    if |a| > 0 {
      PrecedesIrreflexive(a[1..]);
    }
  }

  lemma {:induction false} PrecedesTransitive(a: Symbol, b: Symbol, c: Symbol)
    requires Precedes(a, b) && Precedes(b, c)
    ensures Precedes(a, c)
    decreases |a|
  {
    if |a| > 0 && a[0] == b[0] && b[0] == c[0] {
      PrecedesTransitive(a[1..], b[1..], c[1..]);
    }
  }

  lemma {:induction false} PrecedesTotal(a: Symbol, b: Symbol)
    requires a != b
    ensures Precedes(a, b) || Precedes(b, a)
    decreases |a|
  {
    if |a| > 0 && |b| > 0 && a[0] == b[0] {
      assert a == [a[0]] + a[1..] && b == [b[0]] + b[1..];
      PrecedesTotal(a[1..], b[1..]);
    }
  }

  /** Strictly increasing, hence without repetitions. */
  ghost predicate Sorted(r: seq<Symbol>) {
    forall i, j | 0 <= i < j < |r| :: Precedes(r[i], r[j])
  }

  /** The least element of a non-empty set, found by a scan. */
  method Least(s: set<Symbol>) returns (m: Symbol)
    requires s != {}
    ensures m in s && forall y | y in s && y != m :: Precedes(m, y)
  {
    m :| m in s;
    var rest := s - {m};
    while rest != {}
      invariant m in s && m !in rest && rest <= s
      invariant forall y | y in s && y !in rest && y != m :: Precedes(m, y)
      decreases |rest|
    {
      var y :| y in rest;
      if Precedes(y, m) {
        forall z | z in s && z !in rest && z != m ensures Precedes(y, z) {
          PrecedesTransitive(y, m, z);
        }
        PrecedesIrreflexive(y);
        m := y;
      } else {
        PrecedesTotal(m, y);
      }
      rest := rest - {y};
    }
  }

  /** `sorted(simbolos)`: the elements of the set in increasing order. */
  method SortSymbols(s: set<Symbol>) returns (r: seq<Symbol>)
    ensures Sorted(r)
    ensures forall x :: x in r <==> x in s
  {
    r := [];
    var rest := s;
    while rest != {}
      invariant rest <= s && Sorted(r)
      invariant forall x :: x in s <==> x in r || x in rest
      invariant forall i, y | 0 <= i < |r| && y in rest :: Precedes(r[i], y)
      decreases |rest|
    {
      var m := Least(rest);
      r := r + [m];
      rest := rest - {m};
    }
  }

  /** The symbols tried first, in this order (lines 329-336). */
  const Preferred: seq<Symbol> := ["x", "(", ")", ","]

  /** The preferred symbols that occur in the set, in the preferred order. */
  function PreferredIn(symbols: set<Symbol>): (r: seq<Symbol>)
    ensures forall x :: x in r <==> x in Preferred && x in symbols
  {
    (if "x" in symbols then ["x"] else [])
    + (if "(" in symbols then ["("] else [])
    + (if ")" in symbols then [")"] else [])
    + (if "," in symbols then [","] else [])
  }

  /** The loop of lines 338-340 over `sorted`: a terminal is appended when it is
      not already listed. */
  function AppendTerminals(g: Grammar, listed: seq<Symbol>, sorted: seq<Symbol>): (r: seq<Symbol>)
    ensures |listed| <= |r| && r[..|listed|] == listed
    decreases |sorted|
  {
    if |sorted| == 0 then listed
    else
      var t := sorted[0];
      AppendTerminals(g, if t in g.terminals && t !in listed then listed + [t] else listed, sorted[1..])
  }

  /** The loop of lines 342-344 over `sorted`: every non-terminal is appended. */
  function AppendNonterminals(g: Grammar, listed: seq<Symbol>, sorted: seq<Symbol>): (r: seq<Symbol>)
    ensures |listed| <= |r| && r[..|listed|] == listed
    decreases |sorted|
  {
    if |sorted| == 0 then listed
    else AppendNonterminals(g, if sorted[0] in g.nonterminals then listed + [sorted[0]] else listed, sorted[1..])
  }

  /** `lista_simbolos` for the symbols of a state and their sorted listing. */
  function OrderOf(g: Grammar, symbols: set<Symbol>, sorted: seq<Symbol>): seq<Symbol> {
    AppendNonterminals(g, AppendTerminals(g, PreferredIn(symbols), sorted), sorted)
  }

  lemma {:induction false} AppendTerminalsElements(g: Grammar, listed: seq<Symbol>, sorted: seq<Symbol>)
    ensures forall x :: x in AppendTerminals(g, listed, sorted) <==> x in listed || (x in sorted && x in g.terminals)
    decreases |sorted|
  {
    if |sorted| > 0 {
      var t := sorted[0];
      var next := if t in g.terminals && t !in listed then listed + [t] else listed;
      AppendTerminalsElements(g, next, sorted[1..]);
      assert sorted == [t] + sorted[1..];
    }
  }

  lemma {:induction false} AppendNonterminalsElements(g: Grammar, listed: seq<Symbol>, sorted: seq<Symbol>)
    ensures forall x :: x in AppendNonterminals(g, listed, sorted) <==> x in listed || (x in sorted && x in g.nonterminals)
    decreases |sorted|
  {
    if |sorted| > 0 {
      var next := if sorted[0] in g.nonterminals then listed + [sorted[0]] else listed;
      AppendNonterminalsElements(g, next, sorted[1..]);
      assert sorted == [sorted[0]] + sorted[1..];
    }
  }

  /** The symbols of a state that get a goto are exactly those that are
      preferred, terminals or non-terminals; the preferred ones come first, in
      the preferred order. */
  lemma OrderOfElements(g: Grammar, symbols: set<Symbol>, sorted: seq<Symbol>)
    requires forall x :: x in sorted <==> x in symbols
    ensures forall x :: x in OrderOf(g, symbols, sorted) <==>
      x in symbols && (x in Preferred || x in g.terminals || x in g.nonterminals)
    ensures OrderOf(g, symbols, sorted)[..|PreferredIn(symbols)|] == PreferredIn(symbols)
  {
    var pre := PreferredIn(symbols);
    var mid := AppendTerminals(g, pre, sorted);
    var order := AppendNonterminals(g, mid, sorted);
    AppendTerminalsElements(g, pre, sorted);
    AppendNonterminalsElements(g, mid, sorted);
    assert order[..|mid|] == mid && mid[..|pre|] == pre;
    assert order[..|pre|] == pre;
  }

  /** Lines 328-344: build `lista_simbolos`. */
  method OrderSymbols(g: Grammar, symbols: set<Symbol>, sorted: seq<Symbol>) returns (order: seq<Symbol>)
    ensures order == OrderOf(g, symbols, sorted)
  {
    order := [];
    if "x" in symbols {
      order := order + ["x"];
    }
    if "(" in symbols {
      order := order + ["("];
    }
    if ")" in symbols {
      order := order + [")"];
    }
    if "," in symbols {
      order := order + [","];
    }
    assert order == PreferredIn(symbols);
    for i := 0 to |sorted|
      invariant AppendTerminals(g, order, sorted[i..]) == AppendTerminals(g, PreferredIn(symbols), sorted)
    {
      assert sorted[i..][1..] == sorted[i + 1..];
      var t := sorted[i];
      if t in g.terminals && t !in order {
        order := order + [t];
      }
    }
    ghost var mid := order;
    for i := 0 to |sorted|
      invariant AppendNonterminals(g, order, sorted[i..]) == AppendNonterminals(g, mid, sorted)
    {
      assert sorted[i..][1..] == sorted[i + 1..];
      if sorted[i] in g.nonterminals {
        order := order + [sorted[i]];
      }
    }
  }
}
