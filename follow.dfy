/** The FOLLOW sets (`calcular_conjuntos_follow`): a `while mudou` fixed point in
    which each production is swept right to left carrying a `trailer` set.

    The source binds `trailer` to the FIRST set object itself at two places and
    later extends `trailer` in place, which then also extends that FIRST set. Sets
    are values here, so `trailer` is always a copy and FIRST is never changed. */
module FollowSets {
  import opened GrammarModel
  import opened FirstSets

  /** The symbols that get a FOLLOW entry: non-terminals, left sides, the start. */
  function FollowKeys(g: Grammar): set<Symbol> {
    (set s | s in g.nonterminals) + LeftSymbols(g.productions) + {g.start}
  }

  /** The starting map (lines 229-238): empty sets, except `{eof}` for the start. */
  function InitialFollow(g: Grammar): SymbolSets {
    map s | s in FollowKeys(g) :: if s == g.start then {g.eof} else {}
  }

  /** Whether the sweep updates the FOLLOW set of `sim` (line 250). */
  predicate Tracked(nts: seq<Symbol>, keys: set<Symbol>, sim: Symbol) {
    sim in nts || sim in keys
  }

  /** The trailer after a symbol that resets it: its FIRST set, or the symbol
      itself when it has none. */
  function Reset(fi: SymbolSets, sim: Symbol): set<Symbol> {
    if sim in fi then fi[sim] else {sim}
  }

  /** The trailer for the symbol left of `sim`: extended by FIRST(sim) minus
      epsilon when `sim` is tracked and nullable, reset otherwise (lines 254-268). */
  function NextTrailer(fi: SymbolSets, tracked: bool, sim: Symbol, trailer: set<Symbol>): set<Symbol> {
    if tracked && sim in fi && Epsilon in fi[sim] then trailer + (fi[sim] - {Epsilon}) else Reset(fi, sim)
  }

  /** The sweep over `rhs[..i]`, right to left, starting with `trailer`: each
      tracked symbol's FOLLOW set receives the current trailer. */
  function ScanFollow(fi: SymbolSets, nts: seq<Symbol>, fo: SymbolSets, rhs: seq<Symbol>, i: nat,
                      trailer: set<Symbol>): (r: SymbolSets)
    requires i <= |rhs|
    ensures fo.Keys <= r.Keys
    ensures (forall n | n in nts :: n in fo) ==> r.Keys == fo.Keys
    decreases i
  {
    if i == 0 then fo
    else
      var sim := rhs[i - 1];
      if Tracked(nts, fo.Keys, sim) then
        var prior := if sim in fo then fo[sim] else {};
        ScanFollow(fi, nts, fo[sim := prior + trailer], rhs, i - 1, NextTrailer(fi, true, sim, trailer))
      else
        ScanFollow(fi, nts, fo, rhs, i - 1, Reset(fi, sim))
  }

  /** One production's sweep; the trailer starts as a copy of FOLLOW(left). */
  function FollowStep(fi: SymbolSets, nts: seq<Symbol>, fo: SymbolSets, p: Production): SymbolSets
    requires p.left in fo
  {
    ScanFollow(fi, nts, fo, p.right, |p.right|, fo[p.left])
  }

  /** One full pass of the `for` loop over the productions, in order. */
  function FollowPass(fi: SymbolSets, nts: seq<Symbol>, fo: SymbolSets, prods: seq<Production>): (r: SymbolSets)
    requires LeftsAreKeys(fo, prods)
    ensures fo.Keys <= r.Keys
    ensures (forall n | n in nts :: n in fo) ==> r.Keys == fo.Keys
  {
    if |prods| == 0 then fo
    else
      var last := |prods| - 1;
      var init := prods[..last];
      assert LeftsAreKeys(fo, init) by {
        forall j | 0 <= j < last ensures init[j].left in fo {
          assert init[j] == prods[j];
        }
      }
      FollowStep(fi, nts, FollowPass(fi, nts, fo, init), prods[last])
  }

  // ---------------------------------------------------------------------------
  // The sweep only adds

  ghost predicate NonterminalsAreKeys(nts: seq<Symbol>, fo: SymbolSets) {
    forall n | n in nts :: n in fo
  }

  lemma {:induction false} ScanFollowGrows(fi: SymbolSets, nts: seq<Symbol>, fo: SymbolSets, rhs: seq<Symbol>,
                                           i: nat, trailer: set<Symbol>)
    requires i <= |rhs| && NonterminalsAreKeys(nts, fo)
    ensures Grows(fo, ScanFollow(fi, nts, fo, rhs, i, trailer))
    decreases i
  {
    if i > 0 {
      var sim := rhs[i - 1];
      if Tracked(nts, fo.Keys, sim) {
        var next := fo[sim := fo[sim] + trailer];
        ScanFollowGrows(fi, nts, next, rhs, i - 1, NextTrailer(fi, true, sim, trailer));
        GrowsTransitive(fo, next, ScanFollow(fi, nts, next, rhs, i - 1, NextTrailer(fi, true, sim, trailer)));
      } else {
        ScanFollowGrows(fi, nts, fo, rhs, i - 1, Reset(fi, sim));
      }
    }
  }

  /** Each prefix of a pass only adds to the map, and a longer prefix adds more. */
  lemma {:induction false} FollowPassGrows(fi: SymbolSets, nts: seq<Symbol>, fo: SymbolSets,
                                           prods: seq<Production>, i: nat)
    requires LeftsAreKeys(fo, prods) && NonterminalsAreKeys(nts, fo)
    requires i <= |prods|
    ensures LeftsAreKeys(fo, prods[..i])
    ensures Grows(FollowPass(fi, nts, fo, prods[..i]), FollowPass(fi, nts, fo, prods))
    ensures Grows(fo, FollowPass(fi, nts, fo, prods))
    decreases |prods|
  {
    var pre := prods[..i];
    assert LeftsAreKeys(fo, pre) by {
      forall j | 0 <= j < i ensures pre[j].left in fo {
        assert pre[j] == prods[j];
      }
    }
    if |prods| == 0 {
      assert pre == prods;
    } else {
      var last := |prods| - 1;
      var init := prods[..last];
      var before := FollowPass(fi, nts, fo, init);
      FollowPassGrows(fi, nts, fo, init, last);
      assert init[..last] == init;
      ScanFollowGrows(fi, nts, before, prods[last].right, |prods[last].right|, before[prods[last].left]);
      GrowsTransitive(fo, before, FollowPass(fi, nts, fo, prods));
      if i == |prods| {
        assert pre == prods;
      } else {
        FollowPassGrows(fi, nts, fo, init, i);
        assert init[..i] == pre;
        GrowsTransitive(FollowPass(fi, nts, fo, pre), before, FollowPass(fi, nts, fo, prods));
      }
    }
  }

  // ---------------------------------------------------------------------------
  // What the sets contain

  /** Every element of a FIRST set. */
  function FirstValues(fi: SymbolSets): set<Symbol> {
    set k, x | k in fi && x in fi[k] :: x
  }

  /** The universe FOLLOW sets are drawn from: eof, right-side symbols and the
      elements of FIRST sets. */
  function FollowUniverse(g: Grammar, fi: SymbolSets): set<Symbol> {
    {g.eof} + RightSymbols(g.productions) + FirstValues(fi)
  }

  ghost predicate BoundedBy(fo: SymbolSets, universe: set<Symbol>) {
    forall k | k in fo :: fo[k] <= universe
  }

  ghost predicate RightSymbolsOf(g: Grammar, rhs: seq<Symbol>) {
    forall j | 0 <= j < |rhs| :: rhs[j] in RightSymbols(g.productions)
  }

  lemma RightSymbolsOfProduction(g: Grammar, i: nat)
    requires i < |g.productions|
    ensures RightSymbolsOf(g, g.productions[i].right)
  {
    forall j | 0 <= j < |g.productions[i].right|
      ensures g.productions[i].right[j] in RightSymbols(g.productions)
    {
    }
  }

  lemma {:induction false} ScanFollowBounded(g: Grammar, fi: SymbolSets, fo: SymbolSets, rhs: seq<Symbol>,
                                             i: nat, trailer: set<Symbol>)
    requires i <= |rhs| && RightSymbolsOf(g, rhs)
    requires BoundedBy(fo, FollowUniverse(g, fi)) && trailer <= FollowUniverse(g, fi)
    ensures BoundedBy(ScanFollow(fi, g.nonterminals, fo, rhs, i, trailer), FollowUniverse(g, fi))
    decreases i
  {
    if i > 0 {
      var sim := rhs[i - 1];
      assert sim in RightSymbols(g.productions);
      if sim in fi {
        forall x | x in fi[sim] ensures x in FirstValues(fi) { }
      }
      if Tracked(g.nonterminals, fo.Keys, sim) {
        var prior := if sim in fo then fo[sim] else {};
        ScanFollowBounded(g, fi, fo[sim := prior + trailer], rhs, i - 1, NextTrailer(fi, true, sim, trailer));
      } else {
        ScanFollowBounded(g, fi, fo, rhs, i - 1, Reset(fi, sim));
      }
    }
  }

  /** The conditions under which no FOLLOW set receives epsilon: eof is not the
      empty string, no right side holds the empty string, and the FIRST map has
      the entries and the terminal sets its computation gives. */
  ghost predicate EpsilonFreeInputs(g: Grammar, fi: SymbolSets) {
    && g.eof != Epsilon
    && Epsilon !in RightSymbols(g.productions)
    && fi.Keys == FirstKeys(g)
    && forall t | t in g.terminals && t !in LeftSymbols(g.productions) :: fi[t] == {t}
  }

  ghost predicate EpsilonFree(fo: SymbolSets) {
    forall k | k in fo :: Epsilon !in fo[k]
  }

  lemma {:induction false} ScanFollowEpsilonFree(g: Grammar, fi: SymbolSets, fo: SymbolSets, rhs: seq<Symbol>,
                                                 i: nat, trailer: set<Symbol>)
    requires i <= |rhs| && RightSymbolsOf(g, rhs)
    requires EpsilonFreeInputs(g, fi) && LeftSymbols(g.productions) <= fo.Keys
    requires EpsilonFree(fo) && Epsilon !in trailer
    ensures EpsilonFree(ScanFollow(fi, g.nonterminals, fo, rhs, i, trailer))
    decreases i
  {
    if i > 0 {
      var sim := rhs[i - 1];
      assert sim in RightSymbols(g.productions);
      if Tracked(g.nonterminals, fo.Keys, sim) {
        var prior := if sim in fo then fo[sim] else {};
        ScanFollowEpsilonFree(g, fi, fo[sim := prior + trailer], rhs, i - 1, NextTrailer(fi, true, sim, trailer));
      } else {
        assert sim !in LeftSymbols(g.productions) && sim !in g.nonterminals;
        ScanFollowEpsilonFree(g, fi, fo, rhs, i - 1, Reset(fi, sim));
      }
    }
  }

  /** A pass keeps the bound and, under the conditions above, the absence of epsilon. */
  lemma {:induction false} FollowPassPrefixPreserves(g: Grammar, fi: SymbolSets, fo: SymbolSets, i: nat)
    requires i <= |g.productions|
    requires LeftsAreKeys(fo, g.productions) && NonterminalsAreKeys(g.nonterminals, fo)
    requires LeftSymbols(g.productions) <= fo.Keys
    requires BoundedBy(fo, FollowUniverse(g, fi))
    ensures LeftsAreKeys(fo, g.productions[..i])
    ensures BoundedBy(FollowPass(fi, g.nonterminals, fo, g.productions[..i]), FollowUniverse(g, fi))
    ensures EpsilonFreeInputs(g, fi) && EpsilonFree(fo) ==>
      EpsilonFree(FollowPass(fi, g.nonterminals, fo, g.productions[..i]))
  {
    var pre := g.productions[..i];
    assert LeftsAreKeys(fo, pre) by {
      forall j | 0 <= j < i ensures pre[j].left in fo {
        assert pre[j] == g.productions[j];
      }
    }
    if i > 0 {
      FollowPassPrefixPreserves(g, fi, fo, i - 1);
      assert pre[..i - 1] == g.productions[..i - 1];
      var before := FollowPass(fi, g.nonterminals, fo, g.productions[..i - 1]);
      var p := g.productions[i - 1];
      assert pre[i - 1] == p;
      RightSymbolsOfProduction(g, i - 1);
      ScanFollowBounded(g, fi, before, p.right, |p.right|, before[p.left]);
      if EpsilonFreeInputs(g, fi) && EpsilonFree(fo) {
        ScanFollowEpsilonFree(g, fi, before, p.right, |p.right|, before[p.left]);
      }
    }
  }

  // ---------------------------------------------------------------------------
  // What a fixed point means

  /** The trailer in effect when the sweep of `rhs[..i]`, started with `t`,
      reaches `rhs[j]`. */
  function TrailerAt(fi: SymbolSets, nts: seq<Symbol>, keys: set<Symbol>, rhs: seq<Symbol>, i: nat,
                     t: set<Symbol>, j: nat): set<Symbol>
    requires j < i <= |rhs|
    decreases i
  {
    if j == i - 1 then t
    else TrailerAt(fi, nts, keys, rhs, i - 1, NextTrailer(fi, Tracked(nts, keys, rhs[i - 1]), rhs[i - 1], t), j)
  }

  /** Read from the other end: the trailer at `rhs[j]` follows from the one at
      `rhs[j + 1]`. */
  lemma {:induction false} TrailerAtStep(fi: SymbolSets, nts: seq<Symbol>, keys: set<Symbol>, rhs: seq<Symbol>,
                                         i: nat, t: set<Symbol>, j: nat)
    requires j + 1 < i <= |rhs|
    ensures TrailerAt(fi, nts, keys, rhs, i, t, j)
         == NextTrailer(fi, Tracked(nts, keys, rhs[j + 1]), rhs[j + 1], TrailerAt(fi, nts, keys, rhs, i, t, j + 1))
    decreases i
  {
    if j + 1 < i - 1 {
      TrailerAtStep(fi, nts, keys, rhs, i - 1, NextTrailer(fi, Tracked(nts, keys, rhs[i - 1]), rhs[i - 1], t), j);
    }
  }

  /** Every symbol of `rhs[k..]` is tracked and nullable. */
  ghost predicate NullableTrackedFrom(fi: SymbolSets, nts: seq<Symbol>, keys: set<Symbol>, rhs: seq<Symbol>, k: nat) {
    forall m | k <= m < |rhs| :: Tracked(nts, keys, rhs[m]) && Nullable(fi, rhs[m])
  }

  /** Across tracked nullable symbols the trailer keeps what it started with. */
  lemma {:induction false} TrailerKeepsStart(fi: SymbolSets, nts: seq<Symbol>, keys: set<Symbol>, rhs: seq<Symbol>,
                                             t: set<Symbol>, j: nat)
    requires j < |rhs| && NullableTrackedFrom(fi, nts, keys, rhs, j + 1)
    ensures t <= TrailerAt(fi, nts, keys, rhs, |rhs|, t, j)
    decreases |rhs| - j
  {
    if j + 1 < |rhs| {
      TrailerKeepsStart(fi, nts, keys, rhs, t, j + 1);
      TrailerAtStep(fi, nts, keys, rhs, |rhs|, t, j);
    }
  }

  /** Every symbol of `rhs[k..m]` is tracked and nullable. */
  ghost predicate NullableTrackedBetween(fi: SymbolSets, nts: seq<Symbol>, keys: set<Symbol>, rhs: seq<Symbol>,
                                         k: nat, m: nat)
    requires m <= |rhs|
  {
    forall l | k <= l < m :: Tracked(nts, keys, rhs[l]) && Nullable(fi, rhs[l])
  }

  /** What `sim` puts into the trailer: its FIRST set without epsilon when
      the trailer passes over it (tracked and nullable), and otherwise the
      trailer it resets to. */
  function Contribution(fi: SymbolSets, nts: seq<Symbol>, keys: set<Symbol>, sim: Symbol): set<Symbol> {
    if Tracked(nts, keys, sim) && sim in fi && Epsilon in fi[sim] then fi[sim] - {Epsilon} else Reset(fi, sim)
  }

  /** The trailer left of `rhs[j]` holds what every later symbol reached
      through tracked nullable symbols contributes. */
  lemma {:induction false} TrailerHasContribution(fi: SymbolSets, nts: seq<Symbol>, keys: set<Symbol>,
                                                  rhs: seq<Symbol>, t: set<Symbol>, j: nat, m: nat)
    requires j < m < |rhs| && NullableTrackedBetween(fi, nts, keys, rhs, j + 1, m)
    ensures Contribution(fi, nts, keys, rhs[m]) <= TrailerAt(fi, nts, keys, rhs, |rhs|, t, j)
    decreases m - j
  {
    TrailerAtStep(fi, nts, keys, rhs, |rhs|, t, j);
    if m > j + 1 {
      TrailerHasContribution(fi, nts, keys, rhs, t, j + 1, m);
    }
  }

  /** The trailer left of `rhs[j]` holds nothing else: it lies within any set
      that holds those contributions and, when every later symbol is tracked
      and nullable, the starting trailer. */
  lemma {:induction false} TrailerWithin(fi: SymbolSets, nts: seq<Symbol>, keys: set<Symbol>, rhs: seq<Symbol>,
                                         t: set<Symbol>, j: nat, bound: set<Symbol>)
    requires j < |rhs|
    requires forall m | j < m < |rhs| && NullableTrackedBetween(fi, nts, keys, rhs, j + 1, m) ::
      Contribution(fi, nts, keys, rhs[m]) <= bound
    requires NullableTrackedFrom(fi, nts, keys, rhs, j + 1) ==> t <= bound
    ensures TrailerAt(fi, nts, keys, rhs, |rhs|, t, j) <= bound
    decreases |rhs| - j
  {
    if j + 1 < |rhs| {
      TrailerAtStep(fi, nts, keys, rhs, |rhs|, t, j);
      assert NullableTrackedBetween(fi, nts, keys, rhs, j + 1, j + 1);
      if Tracked(nts, keys, rhs[j + 1]) && Nullable(fi, rhs[j + 1]) {
        forall m | j + 1 < m < |rhs| && NullableTrackedBetween(fi, nts, keys, rhs, j + 2, m)
          ensures Contribution(fi, nts, keys, rhs[m]) <= bound
        {
          assert NullableTrackedBetween(fi, nts, keys, rhs, j + 1, m);
        }
        TrailerWithin(fi, nts, keys, rhs, t, j + 1, bound);
      }
    }
  }

  /** A sweep that changes nothing has already given every tracked symbol its
      trailer. */
  lemma {:induction false} StableScanFollow(fi: SymbolSets, nts: seq<Symbol>, fo: SymbolSets, rhs: seq<Symbol>,
                                            i: nat, t: set<Symbol>, j: nat)
    requires i <= |rhs| && NonterminalsAreKeys(nts, fo)
    requires ScanFollow(fi, nts, fo, rhs, i, t) == fo
    requires j < i && Tracked(nts, fo.Keys, rhs[j])
    ensures rhs[j] in fo && TrailerAt(fi, nts, fo.Keys, rhs, i, t, j) <= fo[rhs[j]]
    decreases i
  {
    var sim := rhs[i - 1];
    var t' := NextTrailer(fi, Tracked(nts, fo.Keys, sim), sim, t);
    if Tracked(nts, fo.Keys, sim) {
      var next := fo[sim := fo[sim] + t];
      ScanFollowGrows(fi, nts, next, rhs, i - 1, t');
      GrowsAntisymmetric(fo, next);
      if j < i - 1 {
        StableScanFollow(fi, nts, fo, rhs, i - 1, t', j);
      }
    } else if j < i - 1 {
      StableScanFollow(fi, nts, fo, rhs, i - 1, t', j);
    }
  }

  /** The FOLLOW rules of one production `a -> rhs`, for every tracked `rhs[j]`:
      each later symbol reached through tracked nullable symbols puts its
      contribution (its FIRST set minus epsilon, or the reset trailer for the
      first symbol the trailer does not pass over) into FOLLOW(rhs[j]); and
      when every symbol after `rhs[j]` is tracked and nullable, FOLLOW(a) is in
      FOLLOW(rhs[j]). */
  ghost predicate FollowRule(fi: SymbolSets, nts: seq<Symbol>, fo: SymbolSets, a: Symbol, rhs: seq<Symbol>)
    requires a in fo
  {
    forall j | 0 <= j < |rhs| && Tracked(nts, fo.Keys, rhs[j]) ::
      && rhs[j] in fo
      && (forall m | j < m < |rhs| && NullableTrackedBetween(fi, nts, fo.Keys, rhs, j + 1, m) ::
            Contribution(fi, nts, fo.Keys, rhs[m]) <= fo[rhs[j]])
      && (NullableTrackedFrom(fi, nts, fo.Keys, rhs, j + 1) ==> fo[a] <= fo[rhs[j]])
  }

  lemma StableStepRule(fi: SymbolSets, nts: seq<Symbol>, fo: SymbolSets, p: Production)
    requires p.left in fo && NonterminalsAreKeys(nts, fo)
    requires FollowStep(fi, nts, fo, p) == fo
    ensures FollowRule(fi, nts, fo, p.left, p.right)
  {
    forall j | 0 <= j < |p.right| && Tracked(nts, fo.Keys, p.right[j])
      ensures p.right[j] in fo
      ensures forall m | j < m < |p.right| && NullableTrackedBetween(fi, nts, fo.Keys, p.right, j + 1, m) ::
        Contribution(fi, nts, fo.Keys, p.right[m]) <= fo[p.right[j]]
      ensures NullableTrackedFrom(fi, nts, fo.Keys, p.right, j + 1) ==> fo[p.left] <= fo[p.right[j]]
    {
      StableScanFollow(fi, nts, fo, p.right, |p.right|, fo[p.left], j);
      forall m | j < m < |p.right| && NullableTrackedBetween(fi, nts, fo.Keys, p.right, j + 1, m)
        ensures Contribution(fi, nts, fo.Keys, p.right[m]) <= fo[p.right[j]]
      {
        TrailerHasContribution(fi, nts, fo.Keys, p.right, fo[p.left], j, m);
      }
      if NullableTrackedFrom(fi, nts, fo.Keys, p.right, j + 1) {
        TrailerKeepsStart(fi, nts, fo.Keys, p.right, fo[p.left], j);
      }
    }
  }

  /** When a whole pass changes nothing, neither does any prefix of it. */
  lemma StableFollowPrefix(fi: SymbolSets, nts: seq<Symbol>, fo: SymbolSets, prods: seq<Production>, i: nat)
    requires LeftsAreKeys(fo, prods) && NonterminalsAreKeys(nts, fo)
    requires FollowPass(fi, nts, fo, prods) == fo
    requires i <= |prods|
    ensures LeftsAreKeys(fo, prods[..i])
    ensures FollowPass(fi, nts, fo, prods[..i]) == fo
  {
    FollowPassGrows(fi, nts, fo, prods, i);
    FollowPassGrows(fi, nts, fo, prods[..i], i);
    assert prods[..i][..i] == prods[..i];
    GrowsAntisymmetric(fo, FollowPass(fi, nts, fo, prods[..i]));
  }

  /** When a whole pass changes nothing, no single production's sweep does. */
  lemma StableFollowPassStep(fi: SymbolSets, nts: seq<Symbol>, fo: SymbolSets, prods: seq<Production>, i: nat)
    requires LeftsAreKeys(fo, prods) && NonterminalsAreKeys(nts, fo)
    requires FollowPass(fi, nts, fo, prods) == fo
    requires i < |prods|
    ensures prods[i].left in fo && FollowStep(fi, nts, fo, prods[i]) == fo
  {
    StableFollowPrefix(fi, nts, fo, prods, i);
    StableFollowPrefix(fi, nts, fo, prods, i + 1);
    var pre1 := prods[..i + 1];
    assert pre1[..i] == prods[..i];
    assert pre1[i] == prods[i];
  }

  /** The result of the loop satisfies the FOLLOW rules of every production. */
  lemma FixedPointFollowRules(g: Grammar, fi: SymbolSets, fo: SymbolSets)
    requires LeftsAreKeys(fo, g.productions) && NonterminalsAreKeys(g.nonterminals, fo)
    requires FollowPass(fi, g.nonterminals, fo, g.productions) == fo
    ensures forall i | 0 <= i < |g.productions| ::
      g.productions[i].left in fo && FollowRule(fi, g.nonterminals, fo, g.productions[i].left, g.productions[i].right)
  {
    forall i | 0 <= i < |g.productions|
      ensures g.productions[i].left in fo
      ensures FollowRule(fi, g.nonterminals, fo, g.productions[i].left, g.productions[i].right)
    {
      StableFollowPassStep(fi, g.nonterminals, fo, g.productions, i);
      StableStepRule(fi, g.nonterminals, fo, g.productions[i]);
    }
  }

  // ---------------------------------------------------------------------------
  // The least solution

  /** A map closed under the FOLLOW rules: the keys of the result, the initial
      sets, and a pass changes nothing. */
  ghost predicate FollowSolution(g: Grammar, fi: SymbolSets, s: SymbolSets) {
    && s.Keys == FollowKeys(g)
    && LeftsAreKeys(s, g.productions)
    && Grows(InitialFollow(g), s)
    && FollowPass(fi, g.nonterminals, s, g.productions) == s
  }

  lemma {:induction false} ScanFollowMonotone(fi: SymbolSets, nts: seq<Symbol>, fo: SymbolSets, s: SymbolSets,
                                              rhs: seq<Symbol>, i: nat, t: set<Symbol>, ts: set<Symbol>)
    requires i <= |rhs| && NonterminalsAreKeys(nts, fo) && Grows(fo, s) && t <= ts
    ensures Grows(ScanFollow(fi, nts, fo, rhs, i, t), ScanFollow(fi, nts, s, rhs, i, ts))
    decreases i
  {
    if i > 0 {
      var sim := rhs[i - 1];
      assert fo.Keys == s.Keys;
      if Tracked(nts, fo.Keys, sim) {
        ScanFollowMonotone(fi, nts, fo[sim := fo[sim] + t], s[sim := s[sim] + ts], rhs, i - 1,
                           NextTrailer(fi, true, sim, t), NextTrailer(fi, true, sim, ts));
      } else {
        ScanFollowMonotone(fi, nts, fo, s, rhs, i - 1, Reset(fi, sim), Reset(fi, sim));
      }
    }
  }

  lemma {:induction false} FollowPassMonotone(fi: SymbolSets, nts: seq<Symbol>, fo: SymbolSets, s: SymbolSets,
                                              prods: seq<Production>)
    requires LeftsAreKeys(fo, prods) && NonterminalsAreKeys(nts, fo) && Grows(fo, s)
    ensures LeftsAreKeys(s, prods)
    ensures Grows(FollowPass(fi, nts, fo, prods), FollowPass(fi, nts, s, prods))
    decreases |prods|
  {
    assert fo.Keys == s.Keys;
    if |prods| > 0 {
      var last := |prods| - 1;
      var init := prods[..last];
      assert LeftsAreKeys(fo, init) by {
        forall j | 0 <= j < last ensures init[j].left in fo {
          assert init[j] == prods[j];
        }
      }
      FollowPassMonotone(fi, nts, fo, s, init);
      var a := FollowPass(fi, nts, fo, init);
      var b := FollowPass(fi, nts, s, init);
      var p := prods[last];
      ScanFollowMonotone(fi, nts, a, b, p.right, |p.right|, a[p.left], b[p.left]);
    }
  }

  // ---------------------------------------------------------------------------
  // The rules alone determine the fixed points

  /** A map that has the entries of the result, contains the initial sets and
      satisfies the FOLLOW rules of every production. */
  ghost predicate FollowRulesHold(g: Grammar, fi: SymbolSets, s: SymbolSets) {
    && s.Keys == FollowKeys(g)
    && Grows(InitialFollow(g), s)
    && forall i | 0 <= i < |g.productions| ::
         g.productions[i].left in s && FollowRule(fi, g.nonterminals, s, g.productions[i].left, g.productions[i].right)
  }

  /** A sweep whose trailers are already in the FOLLOW sets they flow into
      changes nothing. */
  lemma {:induction false} TrailersStableScan(fi: SymbolSets, nts: seq<Symbol>, fo: SymbolSets, rhs: seq<Symbol>,
                                              i: nat, t: set<Symbol>)
    requires i <= |rhs|
    requires forall j | 0 <= j < i && Tracked(nts, fo.Keys, rhs[j]) ::
      rhs[j] in fo && TrailerAt(fi, nts, fo.Keys, rhs, i, t, j) <= fo[rhs[j]]
    ensures ScanFollow(fi, nts, fo, rhs, i, t) == fo
    decreases i
  {
    if i > 0 {
      var sim := rhs[i - 1];
      var t' := NextTrailer(fi, Tracked(nts, fo.Keys, sim), sim, t);
      if Tracked(nts, fo.Keys, sim) {
        assert TrailerAt(fi, nts, fo.Keys, rhs, i, t, i - 1) == t;
        assert sim in fo && t <= fo[sim];
        assert fo[sim] + t == fo[sim];
        assert fo[sim := fo[sim] + t] == fo;
      }
      TrailersStableScan(fi, nts, fo, rhs, i - 1, t');
    }
  }

  /** Conversely to `StableStepRule`: when the FOLLOW rules of a production
      hold, its sweep changes nothing. */
  lemma RuleStableStep(fi: SymbolSets, nts: seq<Symbol>, fo: SymbolSets, p: Production)
    requires p.left in fo && FollowRule(fi, nts, fo, p.left, p.right)
    ensures FollowStep(fi, nts, fo, p) == fo
  {
    forall j | 0 <= j < |p.right| && Tracked(nts, fo.Keys, p.right[j])
      ensures TrailerAt(fi, nts, fo.Keys, p.right, |p.right|, fo[p.left], j) <= fo[p.right[j]]
    {
      TrailerWithin(fi, nts, fo.Keys, p.right, fo[p.left], j, fo[p.right[j]]);
    }
    TrailersStableScan(fi, nts, fo, p.right, |p.right|, fo[p.left]);
  }

  /** When every production's FOLLOW rules hold, no prefix of a pass changes
      the map. */
  lemma {:induction false} RulesStableFollowPass(fi: SymbolSets, nts: seq<Symbol>, fo: SymbolSets,
                                                 prods: seq<Production>, i: nat)
    requires LeftsAreKeys(fo, prods) && i <= |prods|
    requires forall k | 0 <= k < |prods| :: prods[k].left in fo && FollowRule(fi, nts, fo, prods[k].left, prods[k].right)
    ensures LeftsAreKeys(fo, prods[..i])
    ensures FollowPass(fi, nts, fo, prods[..i]) == fo
  {
    LeftsAreKeysPrefix(fo, prods, i);
    if i > 0 {
      RulesStableFollowPass(fi, nts, fo, prods, i - 1);
      var pre := prods[..i];
      assert pre[..i - 1] == prods[..i - 1] && pre[i - 1] == prods[i - 1];
      RuleStableStep(fi, nts, fo, prods[i - 1]);
    }
  }

  /** The maps a pass leaves unchanged are exactly the maps that satisfy the
      FOLLOW rules, so the least of them is the least solution of the rules. */
  lemma FollowSolutionIffRules(g: Grammar, fi: SymbolSets, s: SymbolSets)
    ensures FollowSolution(g, fi, s) <==> FollowRulesHold(g, fi, s)
  {
    if s.Keys == FollowKeys(g) {
      assert NonterminalsAreKeys(g.nonterminals, s) by {
        forall n | n in g.nonterminals ensures n in s {
          assert n in FollowKeys(g);
        }
      }
    }
    if FollowSolution(g, fi, s) {
      FixedPointFollowRules(g, fi, s);
    }
    if FollowRulesHold(g, fi, s) {
      RulesStableFollowPass(fi, g.nonterminals, s, g.productions, |g.productions|);
      assert g.productions[..|g.productions|] == g.productions;
    }
  }

  // ---------------------------------------------------------------------------
  // The methods

  /** The right-to-left sweep of one production (lines 244-268); `changed` reports
      whether some FOLLOW set grew. */
  method SweepProduction(fi: SymbolSets, nts: seq<Symbol>, fo: SymbolSets, p: Production)
    returns (next: SymbolSets, changed: bool)
    requires p.left in fo && NonterminalsAreKeys(nts, fo)
    ensures next == FollowStep(fi, nts, fo, p)
    ensures changed <==> next != fo
  {
    next := fo;
    changed := false;
    var trailer := fo[p.left];
    var i := |p.right|;
    while i > 0
      invariant 0 <= i <= |p.right|
      invariant NonterminalsAreKeys(nts, next) && Grows(fo, next)
      invariant FollowStep(fi, nts, fo, p) == ScanFollow(fi, nts, next, p.right, i, trailer)
      invariant changed <==> next != fo
    {
      var sim := p.right[i - 1];
      if sim in nts || sim in next {
        if sim !in next {
          next := next[sim := {}];
        }
        var prev := next[sim];
        ghost var before := next;
        next := next[sim := prev + trailer];
        if prev != next[sim] {
          changed := true;
        }
        if sim in fi && Epsilon in fi[sim] {
          trailer := trailer + (fi[sim] - {Epsilon});
        } else if sim in fi {
          trailer := fi[sim];
        } else {
          trailer := {sim};
        }
        GrowsTransitive(fo, before, next);
        if next == fo {
          GrowsAntisymmetric(before, fo);
        }
      } else {
        if sim in fi {
          trailer := fi[sim];
        } else {
          trailer := {sim};
        }
      }
      i := i - 1;
    }
  }

  /** One pass over the productions. */
  method FollowPassLoop(fi: SymbolSets, nts: seq<Symbol>, fo: SymbolSets, prods: seq<Production>)
    returns (next: SymbolSets, changed: bool)
    requires LeftsAreKeys(fo, prods) && NonterminalsAreKeys(nts, fo)
    ensures next == FollowPass(fi, nts, fo, prods)
    ensures Grows(fo, next)
    ensures changed <==> next != fo
  {
    next := fo;
    changed := false;
    var i := 0;
    while i < |prods|
      invariant 0 <= i <= |prods|
      invariant LeftsAreKeys(fo, prods[..i])
      invariant next == FollowPass(fi, nts, fo, prods[..i])
      invariant Grows(fo, next)
      invariant changed <==> next != fo
    {
      assert prods[..i + 1][..i] == prods[..i];
      assert LeftsAreKeys(fo, prods[..i + 1]);
      var after, c := SweepProduction(fi, nts, next, prods[i]);
      ScanFollowGrows(fi, nts, next, prods[i].right, |prods[i].right|, next[prods[i].left]);
      GrowsTransitive(fo, next, after);
      if after == fo {
        GrowsAntisymmetric(next, fo);
      }
      changed := changed || c;
      next := after;
      i := i + 1;
    }
    assert prods[..i] == prods;
  }

  /** The initial map, built by the loops of lines 229-238. */
  method InitializeFollow(g: Grammar) returns (follow: SymbolSets)
    ensures follow == InitialFollow(g)
  {
    follow := map[];
    var i := 0;
    while i < |g.nonterminals|
      invariant 0 <= i <= |g.nonterminals|
      invariant follow == map s | s in g.nonterminals[..i] :: {}
    {
      follow := follow[g.nonterminals[i] := {}];
      assert g.nonterminals[..i + 1] == g.nonterminals[..i] + [g.nonterminals[i]];
      i := i + 1;
    }
    assert g.nonterminals[..i] == g.nonterminals;
    i := 0;
    while i < |g.productions|
      invariant 0 <= i <= |g.productions|
      invariant follow.Keys == (set s | s in g.nonterminals) + LeftSymbols(g.productions[..i])
      invariant forall k | k in follow :: follow[k] == {}
    {
      if g.productions[i].left !in follow {
        follow := follow[g.productions[i].left := {}];
      }
      LeftSymbolsSnoc(g.productions, i);
      i := i + 1;
    }
    assert g.productions[..i] == g.productions;
    follow := follow[g.start := {g.eof}];
    assert follow.Keys == InitialFollow(g).Keys;
    forall k | k in follow ensures follow[k] == InitialFollow(g)[k] {
    }
  }

  /** `calcular_conjuntos_follow` (lines 225-270): passes are repeated until one
      changes nothing. The result has an entry exactly for the non-terminals, left
      sides and start symbol; eof is in FOLLOW(start); another pass leaves it
      unchanged; every set contains its initial value; and, under
      `EpsilonFreeInputs`, no set holds epsilon. */
  method ComputeFollow(g: Grammar, first: SymbolSets) returns (follow: SymbolSets)
    ensures follow.Keys == FollowKeys(g)
    ensures g.eof in follow[g.start]
    ensures LeftsAreKeys(follow, g.productions)
    ensures FollowPass(first, g.nonterminals, follow, g.productions) == follow
    ensures Grows(InitialFollow(g), follow)
    ensures EpsilonFreeInputs(g, first) ==> EpsilonFree(follow)
    ensures FollowSolution(g, first, follow)
    ensures forall s | FollowSolution(g, first, s) :: Grows(follow, s)
    ensures FollowRulesHold(g, first, follow)
    ensures forall s | FollowRulesHold(g, first, s) :: Grows(follow, s)
  {
    follow := InitializeFollow(g);
    assert LeftsAreKeys(follow, g.productions) by {
      forall i | 0 <= i < |g.productions| ensures g.productions[i].left in follow {
        assert g.productions[i].left in LeftSymbols(g.productions);
      }
    }
    assert BoundedBy(follow, FollowUniverse(g, first));
    var changed := true;
    while changed
      invariant follow.Keys == FollowKeys(g)
      invariant LeftsAreKeys(follow, g.productions) && NonterminalsAreKeys(g.nonterminals, follow)
      invariant Grows(InitialFollow(g), follow)
      invariant BoundedBy(follow, FollowUniverse(g, first))
      invariant EpsilonFreeInputs(g, first) ==> EpsilonFree(follow)
      invariant !changed ==> FollowPass(first, g.nonterminals, follow, g.productions) == follow
      invariant forall s | FollowSolution(g, first, s) :: Grows(follow, s)
      decreases MissingIn(FollowUniverse(g, first), follow), changed
    {
      var next, c := FollowPassLoop(first, g.nonterminals, follow, g.productions);
      forall s | FollowSolution(g, first, s) ensures Grows(next, s) {
        FollowPassMonotone(first, g.nonterminals, follow, s, g.productions);
      }
      FollowPassPrefixPreserves(g, first, follow, |g.productions|);
      assert g.productions[..|g.productions|] == g.productions;
      if c {
        MissingShrinks(FollowUniverse(g, first), follow, next);
      }
      GrowsTransitive(InitialFollow(g), follow, next);
      follow := next;
      changed := c;
    }
    FollowSolutionIffRules(g, first, follow);
    forall s | FollowRulesHold(g, first, s) ensures Grows(follow, s) {
      FollowSolutionIffRules(g, first, s);
    }
  }
}
