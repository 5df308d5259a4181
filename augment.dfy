/** Augmenting a grammar (`aumentar_gramatica`): a new production `S' -> S eof`
    becomes production 0, every old production moves up by one, `S'` becomes the
    first non-terminal and the start symbol, and the left-side index is rebuilt. */
module Augmentation {
  import opened GrammarModel

  /** The name of the new start symbol. */
  const AugmentedStart: Symbol := "S'"

  /** The new production 0 of the augmented grammar of `g`. */
  function StartProduction(g: Grammar): Production {
    Production(AugmentedStart, [g.start, g.eof])
  }

  /** `aumentar_gramatica` (lines 173-184). */
  method Augment(g: Grammar) returns (a: Grammar)
    ensures a.Valid()
    ensures a.productions == [StartProduction(g)] + g.productions
    ensures a.nonterminals == [AugmentedStart] + g.nonterminals
    ensures a.terminals == g.terminals
    ensures a.start == AugmentedStart && a.eof == g.eof
  {
    var prods := [StartProduction(g)] + g.productions;
    var index := BuildLeftIndex(prods);
    a := Grammar(g.terminals, [AugmentedStart] + g.nonterminals, AugmentedStart, g.eof, prods, index);
  }

  /** Every index of a list of alternatives moved up by one. */
  function Shifted(alts: seq<Alternative>): (r: seq<Alternative>)
    ensures |r| == |alts|
    ensures forall k | 0 <= k < |r| :: r[k] == Alternative(alts[k].index + 1, alts[k].right)
  {
    if |alts| == 0 then [] else Shifted(alts[..|alts| - 1]) + [Alternative(alts[|alts| - 1].index + 1, alts[|alts| - 1].right)]
  }

  /** Prepending a production of a different left side shifts the productions of
      `x` by one. */
  lemma {:induction false} ProductionsOfPrepend(p: Production, prods: seq<Production>, x: Symbol)
    requires p.left != x
    ensures ProductionsOf([p] + prods, x) == Shifted(ProductionsOf(prods, x))
    decreases |prods|
  {
    var all := [p] + prods;
    if |prods| == 0 {
      assert all[..0] == [];
    } else {
      var last := |prods| - 1;
      assert all[..|all| - 1] == [p] + prods[..last];
      ProductionsOfPrepend(p, prods[..last], x);
      assert all[|all| - 1] == prods[last];
    }
  }

  /** In the augmented grammar every old left side keeps its productions, in the
      same order, each with its number moved up by one; `S'` (when it was not a
      left side before) has exactly production 0. */
  lemma AugmentedIndex(g: Grammar, a: Grammar, x: Symbol)
    requires a.Valid()
    requires a.productions == [StartProduction(g)] + g.productions
    ensures x != AugmentedStart && x in LeftSymbols(g.productions) ==>
      x in a.byLeft && a.byLeft[x] == Shifted(ProductionsOf(g.productions, x))
    ensures x != AugmentedStart && x !in LeftSymbols(g.productions) ==> x !in a.byLeft
    ensures AugmentedStart in a.byLeft
    ensures AugmentedStart !in LeftSymbols(g.productions) ==>
      a.byLeft[AugmentedStart] == [Alternative(0, [g.start, g.eof])]
  {
    if x != AugmentedStart {
      ProductionsOfPrepend(StartProduction(g), g.productions, x);
      ProductionsOfEmpty(g.productions, x);
      ProductionsOfEmpty(a.productions, x);
    }
    assert a.productions[0].left == AugmentedStart;
    if AugmentedStart !in LeftSymbols(g.productions) {
      forall i | 1 <= i < |a.productions| ensures a.productions[i].left != AugmentedStart {
        assert a.productions[i] == g.productions[i - 1];
      }
      StartOnlyProduction(g, a.productions);
    }
  }

  /** When `S'` was not a left side, production 0 is its only production. */
  lemma {:induction false} StartOnlyProduction(g: Grammar, prods: seq<Production>)
    requires |prods| >= 1 && prods[0] == StartProduction(g)
    requires forall i | 1 <= i < |prods| :: prods[i].left != AugmentedStart
    ensures ProductionsOf(prods, AugmentedStart) == [Alternative(0, [g.start, g.eof])]
    decreases |prods|
  {
    if |prods| > 1 {
      var last := |prods| - 1;
      StartOnlyProduction(g, prods[..last]);
    }
  }
}
