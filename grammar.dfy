/** The grammar record (`Gramatica`): terminals, non-terminals, start symbol,
    end-of-input marker, the indexed productions, the index of productions by
    left side, and the validation of a grammar. */
module GrammarModel {

  /** Symbols are plain strings; whether one is a terminal or a non-terminal is
      decided by membership in the grammar's two lists. */
  type Symbol = string

  /** A production `left -> right`; an empty right side is an epsilon production. */
  datatype Production = Production(left: Symbol, right: seq<Symbol>)

  /** One entry of the left-side index: a production's number and its right side. */
  datatype Alternative = Alternative(index: nat, right: seq<Symbol>)

  datatype Grammar = Grammar(
    terminals: seq<Symbol>,
    nonterminals: seq<Symbol>,
    start: Symbol,
    eof: Symbol,
    productions: seq<Production>,
    byLeft: map<Symbol, seq<Alternative>>)
  {
    /** The index by left side always describes the current productions. */
    ghost predicate Valid() {
      IsLeftIndex(byLeft, productions)
    }
  }

  /** The left sides that have at least one production. */
  function LeftSymbols(prods: seq<Production>): set<Symbol> {
    set i | 0 <= i < |prods| :: prods[i].left
  }

  /** Extending a prefix by one production adds its left side. */
  lemma LeftSymbolsSnoc(prods: seq<Production>, i: nat)
    requires i < |prods|
    ensures LeftSymbols(prods[..i + 1]) == LeftSymbols(prods[..i]) + {prods[i].left}
  {
    var longer := prods[..i + 1];
    var shorter := prods[..i];
    forall x | x in LeftSymbols(longer) ensures x in LeftSymbols(shorter) + {prods[i].left} {
      var j :| 0 <= j < |longer| && longer[j].left == x;
      if j < i {
        assert shorter[j] == longer[j];
      }
    }
    forall x | x in LeftSymbols(shorter) ensures x in LeftSymbols(longer) {
      var j :| 0 <= j < |shorter| && shorter[j].left == x;
      assert longer[j] == shorter[j];
    }
    assert longer[i] == prods[i];
  }

  /** The productions of `a`, as (index, right side) pairs in declaration order. */
  function ProductionsOf(prods: seq<Production>, a: Symbol): seq<Alternative> {
    if |prods| == 0 then []
    else
      var last := |prods| - 1;
      ProductionsOf(prods[..last], a)
      + (if prods[last].left == a then [Alternative(last, prods[last].right)] else [])
  }

  ghost predicate IsLeftIndex(index: map<Symbol, seq<Alternative>>, prods: seq<Production>) {
    && index.Keys == LeftSymbols(prods)
    && forall a | a in index :: index[a] == ProductionsOf(prods, a)
  }

  /** Every entry listed for `a` names a production of `a` with that right side,
      the entries are in strictly increasing order of index, and every production
      of `a` is listed. */
  lemma {:induction false} ProductionsOfSpec(prods: seq<Production>, a: Symbol)
    ensures forall k | 0 <= k < |ProductionsOf(prods, a)| ::
      && ProductionsOf(prods, a)[k].index < |prods|
      && prods[ProductionsOf(prods, a)[k].index] == Production(a, ProductionsOf(prods, a)[k].right)
    ensures forall k, l | 0 <= k < l < |ProductionsOf(prods, a)| ::
      ProductionsOf(prods, a)[k].index < ProductionsOf(prods, a)[l].index
    ensures forall i | 0 <= i < |prods| && prods[i].left == a ::
      Alternative(i, prods[i].right) in ProductionsOf(prods, a)
  {
    if |prods| > 0 {
      var last := |prods| - 1;
      var init := prods[..last];
      ProductionsOfSpec(init, a);
      var before := ProductionsOf(init, a);
      var all := ProductionsOf(prods, a);
      assert forall k | 0 <= k < |before| :: before[k].index < last;
      assert all == before + (if prods[last].left == a then [Alternative(last, prods[last].right)] else []);
      forall k, l | 0 <= k < l < |all| ensures all[k].index < all[l].index {
        if l < |before| {
          assert all[k] == before[k] && all[l] == before[l];
        } else {
          assert all[k] == before[k] && all[l].index == last;
        }
      }
      forall i | 0 <= i < |prods| && prods[i].left == a
        ensures Alternative(i, prods[i].right) in ProductionsOf(prods, a)
      {
        if i < last {
          assert init[i] == prods[i];
        }
      }
    }
  }

  /** A symbol has no listed production exactly when it is not a left side. */
  lemma {:induction false} ProductionsOfEmpty(prods: seq<Production>, a: Symbol)
    ensures ProductionsOf(prods, a) == [] <==> a !in LeftSymbols(prods)
  {
    if |prods| > 0 {
      var last := |prods| - 1;
      ProductionsOfEmpty(prods[..last], a);
      assert LeftSymbols(prods) == LeftSymbols(prods[..last]) + {prods[last].left} by {
        forall i | 0 <= i < last ensures prods[..last][i] == prods[i] { }
      }
    }
  }

  /** The loop of `Gramatica.__init__` (and again of `aumentar_gramatica`) that
      appends each production to the list of its left side. */
  method BuildLeftIndex(prods: seq<Production>) returns (index: map<Symbol, seq<Alternative>>)
    ensures IsLeftIndex(index, prods)
  {
    index := map[];
    var i := 0;
    while i < |prods|
      invariant 0 <= i <= |prods|
      invariant IsLeftIndex(index, prods[..i])
    {
      var a := prods[i].left;
      var entries := if a in index then index[a] else [];
      if a !in index {
        ProductionsOfEmpty(prods[..i], a);
      }
      index := index[a := entries + [Alternative(i, prods[i].right)]];
      assert prods[..i + 1][..i] == prods[..i];
      LeftSymbolsSnoc(prods, i);
      i := i + 1;
    }
    assert prods[..i] == prods;
  }

  /** `Gramatica.__init__`: store the fields and build the left-side index. */
  method NewGrammar(terminals: seq<Symbol>, nonterminals: seq<Symbol>, start: Symbol,
                    eof: Symbol, prods: seq<Production>) returns (g: Grammar)
    ensures g.Valid()
    ensures g.terminals == terminals && g.nonterminals == nonterminals
    ensures g.start == start && g.eof == eof && g.productions == prods
  {
    var index := BuildLeftIndex(prods);
    g := Grammar(terminals, nonterminals, start, eof, prods, index);
  }

  // ---------------------------------------------------------------------------
  // Validation (`validar`)

  /** One problem found by validation, in the order the messages are produced. */
  datatype Issue =
    | StartWithoutProductions(start: Symbol)
    | UndeclaredSymbol(symbol: Symbol, production: Production)
    | OverlappingSymbols(common: set<Symbol>)

  predicate Declared(g: Grammar, s: Symbol) {
    s in g.terminals || s in g.nonterminals
  }

  /** Symbols declared both as terminals and as non-terminals. */
  function Common(g: Grammar): set<Symbol> {
    set s | s in g.terminals && s in g.nonterminals
  }

  /** One issue per undeclared symbol occurrence in `syms` (a prefix of `p`'s right side). */
  function UndeclaredInRule(g: Grammar, p: Production, syms: seq<Symbol>): seq<Issue> {
    if |syms| == 0 then []
    else
      var last := syms[|syms| - 1];
      UndeclaredInRule(g, p, syms[..|syms| - 1])
      + (if Declared(g, last) then [] else [UndeclaredSymbol(last, p)])
  }

  /** One issue per undeclared occurrence, production by production. */
  function UndeclaredIssues(g: Grammar, prods: seq<Production>): seq<Issue> {
    if |prods| == 0 then []
    else
      var last := prods[|prods| - 1];
      UndeclaredIssues(g, prods[..|prods| - 1]) + UndeclaredInRule(g, last, last.right)
  }

  /** The issue list `validar` returns, in its order. */
  function ExpectedIssues(g: Grammar): seq<Issue> {
    (if g.start in g.byLeft then [] else [StartWithoutProductions(g.start)])
    + UndeclaredIssues(g, g.productions)
    + (if Common(g) == {} then [] else [OverlappingSymbols(Common(g))])
  }

  /** The three conditions of a well-formed grammar. */
  ghost predicate WellFormed(g: Grammar) {
    && g.start in LeftSymbols(g.productions)
    && (forall i, j | 0 <= i < |g.productions| && 0 <= j < |g.productions[i].right| ::
          Declared(g, g.productions[i].right[j]))
    && (forall s | s in g.terminals :: s !in g.nonterminals)
  }

  lemma {:induction false} UndeclaredInRuleSpec(g: Grammar, p: Production, syms: seq<Symbol>)
    ensures UndeclaredInRule(g, p, syms) == [] <==> forall j | 0 <= j < |syms| :: Declared(g, syms[j])
    ensures forall k | 0 <= k < |UndeclaredInRule(g, p, syms)| ::
      && UndeclaredInRule(g, p, syms)[k].UndeclaredSymbol?
      && UndeclaredInRule(g, p, syms)[k].production == p
      && UndeclaredInRule(g, p, syms)[k].symbol in syms
      && !Declared(g, UndeclaredInRule(g, p, syms)[k].symbol)
  {
    if |syms| > 0 {
      var init := syms[..|syms| - 1];
      UndeclaredInRuleSpec(g, p, init);
      forall j | 0 <= j < |init| ensures init[j] == syms[j] { }
    }
  }

  /** No undeclared-symbol issue exactly when every right-side symbol is declared;
      each issue names an undeclared symbol of a production it came from. */
  lemma {:induction false} UndeclaredIssuesSpec(g: Grammar, prods: seq<Production>)
    ensures UndeclaredIssues(g, prods) == [] <==>
      forall i, j | 0 <= i < |prods| && 0 <= j < |prods[i].right| :: Declared(g, prods[i].right[j])
    ensures forall k | 0 <= k < |UndeclaredIssues(g, prods)| ::
      && UndeclaredIssues(g, prods)[k].UndeclaredSymbol?
      && UndeclaredIssues(g, prods)[k].production in prods
      && UndeclaredIssues(g, prods)[k].symbol in UndeclaredIssues(g, prods)[k].production.right
      && !Declared(g, UndeclaredIssues(g, prods)[k].symbol)
  {
    if |prods| > 0 {
      var init := prods[..|prods| - 1];
      var last := prods[|prods| - 1];
      UndeclaredIssuesSpec(g, init);
      UndeclaredInRuleSpec(g, last, last.right);
      forall i | 0 <= i < |init| ensures init[i] == prods[i] { }
      var r := UndeclaredIssues(g, prods);
      forall k | 0 <= k < |r|
        ensures r[k].UndeclaredSymbol? && r[k].production in prods
      {
        if k < |UndeclaredIssues(g, init)| {
          assert r[k] == UndeclaredIssues(g, init)[k];
        } else {
          assert r[k] == UndeclaredInRule(g, last, last.right)[k - |UndeclaredIssues(g, init)|];
        }
      }
    }
  }

  /** The issue list is empty exactly for a well-formed grammar. */
  lemma ExpectedIssuesEmptyIff(g: Grammar)
    requires g.Valid()
    ensures ExpectedIssues(g) == [] <==> WellFormed(g)
  {
    UndeclaredIssuesSpec(g, g.productions);
    var common := Common(g);
    assert forall s | s in g.terminals && s in g.nonterminals :: s in common;
    if common != {} {
      var s :| s in common;
    }
  }

  /** The outer loop of `validar`: the issues of every production, in order. */
  method UndeclaredAll(g: Grammar) returns (issues: seq<Issue>)
    ensures issues == UndeclaredIssues(g, g.productions)
  {
    issues := [];
    var i := 0;
    while i < |g.productions|
      invariant 0 <= i <= |g.productions|
      invariant issues == UndeclaredIssues(g, g.productions[..i])
    {
      var found := RuleIssues(g, g.productions[i]);
      issues := issues + found;
      assert g.productions[..i + 1][..i] == g.productions[..i];
      i := i + 1;
    }
    assert g.productions[..i] == g.productions;
  }

  /** The inner loop of `validar` over one production's right side. */
  method RuleIssues(g: Grammar, p: Production) returns (issues: seq<Issue>)
    ensures issues == UndeclaredInRule(g, p, p.right)
  {
    issues := [];
    var j := 0;
    while j < |p.right|
      invariant 0 <= j <= |p.right|
      invariant issues == UndeclaredInRule(g, p, p.right[..j])
    {
      var s := p.right[j];
      if s !in g.terminals && s !in g.nonterminals {
        issues := issues + [UndeclaredSymbol(s, p)];
      }
      assert p.right[..j + 1][..j] == p.right[..j];
      j := j + 1;
    }
    assert p.right[..j] == p.right;
  }

  /** `validar`: one issue when the start symbol has no production, one per
      undeclared right-side occurrence, one when the two symbol lists overlap;
      the list is empty exactly for a well-formed grammar. */
  method Validate(g: Grammar) returns (issues: seq<Issue>)
    requires g.Valid()
    ensures issues == ExpectedIssues(g)
    ensures issues == [] <==> WellFormed(g)
  {
    issues := [];
    if g.start !in g.byLeft {
      issues := issues + [StartWithoutProductions(g.start)];
    }
    var found := UndeclaredAll(g);
    issues := issues + found;
    var common := set s | s in g.terminals && s in g.nonterminals;
    if common != {} {
      issues := issues + [OverlappingSymbols(common)];
    }
    ExpectedIssuesEmptyIff(g);
  }
}
