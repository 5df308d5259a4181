/** The canonical collection of LR(0) item sets (`construir_automato_lr0`):
    states numbered from 1 in the order they are found, a queue of states still
    to expand, and a transition map from state numbers to symbol-keyed rows. */
module LR0Automaton {
  import opened GrammarModel
  import opened LR0Items
  import opened SymbolOrder
  import opened Results
  import opened SetSteps

  type ItemSet = set<Item>
  type Transitions = map<nat, map<Symbol, nat>>

  /** The symbols right after the dot in the items of a state (lines 322-326). */
  function ExpectedSymbols(g: Grammar, s: ItemSet): set<Symbol>
    requires ValidItems(g, s)
  {
    set it | it in s && it.dot < |g.productions[it.prod].right| :: g.productions[it.prod].right[it.dot]
  }

  /** The symbols a state gets transitions on: expected, and preferred or
      declared (lines 328-344). */
  function Labels(g: Grammar, s: ItemSet): set<Symbol>
    requires ValidItems(g, s)
  {
    set x | x in ExpectedSymbols(g, s) && (x in Preferred || x in g.terminals || x in g.nonterminals)
  }

  /** A label is expected by some item, so its goto is not empty. */
  lemma LabelExpected(g: Grammar, s: ItemSet, x: Symbol)
    requires ValidItems(g, s) && x in Labels(g, s)
    ensures exists it | it in s :: Expects(g, it, x)
  {
    var it :| it in s && it.dot < |g.productions[it.prod].right| && g.productions[it.prod].right[it.dot] == x;
    assert Expects(g, it, x);
  }

  /** The goto of a state over one of its labels is a state. */
  lemma LabelGoto(g: Grammar, s: ItemSet, x: Symbol)
    requires g.Valid() && ValidItems(g, s) && x in Labels(g, s)
    ensures ValidItems(g, GotoOf(g, s, x)) && GotoOf(g, s, x) != {}
  {
    LabelExpected(g, s, x);
    ClosureOfIsClosure(g, Advance(g, s, x), GotoOf(g, s, x));
    GotoEmpty(g, s, x, GotoOf(g, s, x));
  }

  /** Lines 322-326: collect the symbols after the dots. */
  method CollectSymbols(g: Grammar, s: ItemSet) returns (symbols: set<Symbol>)
    requires ValidItems(g, s)
    ensures symbols == ExpectedSymbols(g, s)
  {
    symbols := {};
    var rest := s;
    ghost var done: ItemSet := {};
    while rest != {}
      invariant done + rest == s && ValidItems(g, done)
      invariant symbols == ExpectedSymbols(g, done)
      decreases |rest|
    {
      var it :| it in rest;
      var rhs := g.productions[it.prod].right;
      if it.dot < |rhs| {
        symbols := symbols + {rhs[it.dot]};
      }
      assert ExpectedSymbols(g, done + {it}) == symbols;
      VisitOne(s, rest, done, it, rest - {it}, done + {it});
      rest := rest - {it};
      done := done + {it};
    }
    assert done == s;
  }

  // ---------------------------------------------------------------------------
  // The state of the construction

  /** `C` and `mapa_estado` agree: state `k + 1` is `states[k]`, each a non-empty
      set of valid items, and the map numbers exactly the listed states. */
  ghost predicate Numbered(g: Grammar, states: seq<ItemSet>, stateOf: map<ItemSet, nat>) {
    && (forall k | 0 <= k < |states| :: ValidItems(g, states[k]) && states[k] != {})
    && (forall k | 0 <= k < |states| :: states[k] in stateOf && stateOf[states[k]] == k + 1)
    && (forall s | s in stateOf :: 1 <= stateOf[s] <= |states| && states[stateOf[s] - 1] == s)
  }

  /** Every state has a row, and every recorded transition of state `n` on `x`
      is on a label `x` of state `n` and leads to the number of the goto of
      state `n` over `x`. */
  ghost predicate GotoEdges(g: Grammar, states: seq<ItemSet>, stateOf: map<ItemSet, nat>, trans: Transitions) {
    && Numbered(g, states, stateOf)
    && (forall n :: n in trans <==> 1 <= n <= |states|)
    && forall n, x | n in trans && x in trans[n] ::
         && x in Labels(g, states[n - 1])
         && GotoOf(g, states[n - 1], x) in stateOf
         && trans[n][x] == stateOf[GotoOf(g, states[n - 1], x)]
  }

  /** Every state after the first was entered by a transition from an earlier
      state. */
  ghost predicate Parents(states: seq<ItemSet>, trans: Transitions, parent: map<nat, (nat, Symbol)>) {
    forall m | 2 <= m <= |states| ::
      && m in parent
      && 1 <= parent[m].0 < m
      && parent[m].0 in trans && parent[m].1 in trans[parent[m].0]
      && trans[parent[m].0][parent[m].1] == m
  }

  /** States `1..done` have a transition on each of their labels. */
  ghost predicate CompleteUpTo(g: Grammar, states: seq<ItemSet>, stateOf: map<ItemSet, nat>, trans: Transitions, done: nat)
  {
    && done <= |states|
    && GotoEdges(g, states, stateOf, trans)
    && forall n, x | 1 <= n <= done && x in Labels(g, states[n - 1]) :: x in trans[n]
  }

  /** `b` keeps every transition of `a`. */
  ghost predicate Extends(a: Transitions, b: Transitions) {
    forall n, x | n in a && x in a[n] :: n in b && x in b[n] && b[n][x] == a[n][x]
  }

  /** Every item set the construction can meet. */
  ghost function PowerSet(a: ItemSet): set<ItemSet> {
    set s | s <= a
  }

  lemma KeysInPowerSet(g: Grammar, states: seq<ItemSet>, stateOf: map<ItemSet, nat>)
    requires Numbered(g, states, stateOf)
    ensures stateOf.Keys <= PowerSet(AllItems(g))
  {
    forall s | s in stateOf ensures s <= AllItems(g) {
      ValidItemsInAll(g, states[stateOf[s] - 1]);
    }
  }

  // ---------------------------------------------------------------------------
  // One transition

  /** A new state keeps the numbering. */
  lemma NumberNewState(g: Grammar, states: seq<ItemSet>, stateOf: map<ItemSet, nat>, r: ItemSet)
    requires Numbered(g, states, stateOf) && r !in stateOf && ValidItems(g, r) && r != {}
    ensures Numbered(g, states + [r], stateOf[r := |states| + 1])
  {
    var states' := states + [r];
    forall k | 0 <= k < |states'| ensures states'[k] in stateOf[r := |states| + 1]
    {
      if k < |states| {
        assert states'[k] == states[k];
      }
    }
  }

  /** A new state, with an empty row, keeps the recorded transitions. */
  lemma EdgesNewState(g: Grammar, states: seq<ItemSet>, stateOf: map<ItemSet, nat>, trans: Transitions, r: ItemSet)
    requires GotoEdges(g, states, stateOf, trans) && r !in stateOf && ValidItems(g, r) && r != {}
    ensures GotoEdges(g, states + [r], stateOf[r := |states| + 1], trans[|states| + 1 := map[]])
  {
    NumberNewState(g, states, stateOf, r);
    var states' := states + [r];
    var trans' := trans[|states| + 1 := map[]];
    forall n, x | n in trans' && x in trans'[n]
      ensures x in Labels(g, states'[n - 1]) && GotoOf(g, states'[n - 1], x) in stateOf
      ensures trans'[n][x] == stateOf[GotoOf(g, states'[n - 1], x)]
    {
      assert n in trans;
      assert states'[n - 1] == states[n - 1];
    }
  }

  /** Recording the transition of state `n` on label `x` to the state numbered
      for its goto keeps the invariant, and leaves earlier transitions as they
      were: a transition recorded twice leads to the same goto, hence to the same
      state. */
  lemma RecordEdge(g: Grammar, states: seq<ItemSet>, stateOf: map<ItemSet, nat>, trans: Transitions,
                   n: nat, x: Symbol, s: ItemSet, r: ItemSet, trans': Transitions)
    requires GotoEdges(g, states, stateOf, trans) && 1 <= n <= |states| && states[n - 1] == s
    requires x in Labels(g, s) && r == GotoOf(g, s, x) && r in stateOf
    requires trans' == trans[n := trans[n][x := stateOf[r]]]
    ensures GotoEdges(g, states, stateOf, trans')
    ensures Extends(trans, trans')
  {
    assert n in trans;
    if x in trans[n] {
      assert trans[n][x] == stateOf[GotoOf(g, states[n - 1], x)];
    }
    UpdateExtends(trans, n, x, stateOf[r], trans[n][x := stateOf[r]], trans');
    RecordEdgeKeeps(g, states, stateOf, trans, n, x, s, r, trans');
  }

  /** The recorded transition leads to the state of the goto. */
  lemma RecordEdgeKeeps(g: Grammar, states: seq<ItemSet>, stateOf: map<ItemSet, nat>, trans: Transitions,
                        n: nat, x: Symbol, s: ItemSet, r: ItemSet, trans': Transitions)
    requires GotoEdges(g, states, stateOf, trans) && 1 <= n <= |states| && states[n - 1] == s
    requires x in Labels(g, s) && r == GotoOf(g, s, x) && r in stateOf
    requires trans' == trans[n := trans[n][x := stateOf[r]]]
    ensures GotoEdges(g, states, stateOf, trans')
  {
    assert states[stateOf[r] - 1] == r;
  }

  /** Setting a transition to the value it already has, if any, keeps the
      earlier transitions. */
  lemma UpdateExtends(trans: Transitions, n: nat, x: Symbol, v: nat, row: map<Symbol, nat>, trans': Transitions)
    requires n in trans && (x in trans[n] ==> trans[n][x] == v)
    requires row == trans[n][x := v] && trans' == trans[n := row]
    ensures Extends(trans, trans')
  {
  }

  lemma ExtendsTransitive(a: Transitions, b: Transitions, c: Transitions)
    requires Extends(a, b) && Extends(b, c)
    ensures Extends(a, c)
  {
  }

  /** Growing the transitions keeps the completed states. */
  lemma ExtendsComplete(g: Grammar, states: seq<ItemSet>, stateOf: map<ItemSet, nat>, trans: Transitions,
                        trans': Transitions, done: nat)
    requires Extends(trans, trans') && CompleteUpTo(g, states, stateOf, trans, done)
    requires GotoEdges(g, states, stateOf, trans')
    ensures CompleteUpTo(g, states, stateOf, trans', done)
  {
  }

  /** Growing the transitions keeps the parents. */
  lemma ExtendsParents(states: seq<ItemSet>, trans: Transitions, trans': Transitions, parent: map<nat, (nat, Symbol)>)
    requires Extends(trans, trans') && Parents(states, trans, parent)
    ensures Parents(states, trans', parent)
  {
  }

  /** An empty row for a state without one adds no transition. */
  lemma EmptyRowExtends(trans: Transitions, m: nat)
    requires m !in trans
    ensures Extends(trans, trans[m := map[]])
  {
  }

  /** A new state with an empty row keeps the completed states and adds no
      transition. */
  lemma NewStateKeeps(g: Grammar, states: seq<ItemSet>, stateOf: map<ItemSet, nat>, trans: Transitions,
                      done: nat, r: ItemSet, states': seq<ItemSet>, stateOf': map<ItemSet, nat>, mid: Transitions)
    requires CompleteUpTo(g, states, stateOf, trans, done)
    requires r !in stateOf && ValidItems(g, r) && r != {}
    requires states' == states + [r] && stateOf' == stateOf[r := |states'|] && mid == trans[|states'| := map[]]
    ensures CompleteUpTo(g, states', stateOf', mid, done)
    ensures Extends(trans, mid)
  {
    EdgesNewState(g, states, stateOf, trans, r);
    EmptyRowExtends(trans, |states'|);
    KeepsComplete(g, states, stateOf, trans, done, r, states', stateOf', mid);
  }

  /** The completed states keep their transitions once a new state is
      appended. */
  lemma KeepsComplete(g: Grammar, states: seq<ItemSet>, stateOf: map<ItemSet, nat>, trans: Transitions,
                      done: nat, r: ItemSet, states': seq<ItemSet>, stateOf': map<ItemSet, nat>, mid: Transitions)
    requires CompleteUpTo(g, states, stateOf, trans, done)
    requires states' == states + [r] && mid == trans[|states'| := map[]]
    requires GotoEdges(g, states', stateOf', mid)
    ensures forall n, x | 1 <= n <= done && x in Labels(g, states'[n - 1]) :: x in mid[n]
  {
    forall n, x | 1 <= n <= done && x in Labels(g, states'[n - 1]) ensures x in mid[n] {
      assert states'[n - 1] == states[n - 1];
    }
  }

  /** The new state `m`, entered from state `n` on `x`, has its parent. */
  lemma NewParent(states: seq<ItemSet>, r: ItemSet, trans: Transitions, trans': Transitions,
                  parent: map<nat, (nat, Symbol)>, n: nat, x: Symbol,
                  states': seq<ItemSet>, parent': map<nat, (nat, Symbol)>)
    requires Parents(states, trans, parent) && Extends(trans, trans')
    requires 1 <= n <= |states| && n in trans' && x in trans'[n] && trans'[n][x] == |states| + 1
    requires states' == states + [r] && parent' == parent[|states'| := (n, x)]
    ensures Parents(states', trans', parent')
  {
  }

  /** Recording the transition of state `n` on `x` to the existing state of
      its goto keeps the invariant. */
  lemma KnownTarget(g: Grammar, states: seq<ItemSet>, stateOf: map<ItemSet, nat>, trans: Transitions,
                    parent: map<nat, (nat, Symbol)>, done: nat, n: nat, x: Symbol, r: ItemSet, trans': Transitions)
    requires 1 <= n <= |states| && CompleteUpTo(g, states, stateOf, trans, done) && Parents(states, trans, parent)
    requires x in Labels(g, states[n - 1]) && r == GotoOf(g, states[n - 1], x) && r in stateOf
    requires trans' == trans[n := trans[n][x := stateOf[r]]]
    ensures CompleteUpTo(g, states, stateOf, trans', done) && Parents(states, trans', parent)
    ensures Extends(trans, trans')
  {
    RecordEdge(g, states, stateOf, trans, n, x, states[n - 1], r, trans');
    ExtendsComplete(g, states, stateOf, trans, trans', done);
    ExtendsParents(states, trans, trans', parent);
  }

  /** Appending the goto of state `n` on `x` as state `|states| + 1`, with an
      empty row, and recording the transition to it keeps the invariant. */
  lemma NewTarget(g: Grammar, states: seq<ItemSet>, stateOf: map<ItemSet, nat>, trans: Transitions,
                  done: nat, n: nat, x: Symbol, r: ItemSet,
                  states': seq<ItemSet>, stateOf': map<ItemSet, nat>, trans': Transitions)
    requires 1 <= n <= |states| && CompleteUpTo(g, states, stateOf, trans, done)
    requires x in Labels(g, states[n - 1]) && r == GotoOf(g, states[n - 1], x) && r !in stateOf
    requires ValidItems(g, r) && r != {}
    requires states' == states + [r] && stateOf' == stateOf[r := |states'|]
    requires trans' == trans[|states'| := map[]][n := trans[n][x := |states'|]]
    ensures CompleteUpTo(g, states', stateOf', trans', done)
    ensures Extends(trans, trans')
  {
    var mid := trans[|states'| := map[]];
    assert trans' == mid[n := mid[n][x := stateOf'[r]]];
    NewStateKeeps(g, states, stateOf, trans, done, r, states', stateOf', mid);
    assert states'[n - 1] == states[n - 1];
    RecordEdge(g, states', stateOf', mid, n, x, states[n - 1], r, trans');
    ExtendsComplete(g, states', stateOf', mid, trans', done);
    ExtendsTransitive(trans, mid, trans');
  }

  /** `construir_automato_lr0`'s handling of one symbol `x` of state `n`
      (lines 346-357): compute the goto; when it is empty, do nothing; when it is
      new, append it as a new state with an empty row and queue it; then record
      the transition. */
  method AddTransition(g: Grammar, n: nat, x: Symbol, states: seq<ItemSet>, stateOf: map<ItemSet, nat>,
                       trans: Transitions, queue: seq<ItemSet>, ghost parent: map<nat, (nat, Symbol)>, ghost done: nat)
    returns (states': seq<ItemSet>, stateOf': map<ItemSet, nat>, trans': Transitions, queue': seq<ItemSet>,
             ghost parent': map<nat, (nat, Symbol)>)
    requires g.Valid() && 1 <= n <= |states| && done < n
    requires CompleteUpTo(g, states, stateOf, trans, done) && Parents(states, trans, parent)
    requires x in Labels(g, states[n - 1])
    ensures CompleteUpTo(g, states', stateOf', trans', done) && Parents(states', trans', parent')
    ensures Extends(trans, trans') && n in trans' && x in trans'[n]
    ensures |states| <= |states'| && states'[..|states|] == states
    ensures stateOf.Keys <= stateOf'.Keys
    ensures queue' == queue + states'[|states|..]
    ensures stateOf'.Keys == stateOf.Keys ==> states' == states
  {
    var r := Goto(g, states[n - 1], x);
    if r in stateOf {
      states', stateOf', queue', parent' := states, stateOf, queue, parent;
      trans' := trans[n := trans[n][x := stateOf[r]]];
      KnownTarget(g, states, stateOf, trans, parent, done, n, x, r, trans');
      assert states[|states|..] == [];
    } else {
      LabelGoto(g, states[n - 1], x);
      states' := states + [r];
      stateOf' := stateOf[r := |states'|];
      trans' := trans[|states'| := map[]][n := trans[n][x := |states'|]];
      queue' := queue + [r];
      parent' := parent[|states'| := (n, x)];
      NewTarget(g, states, stateOf, trans, done, n, x, r, states', stateOf', trans');
      NewParent(states, r, trans, trans', parent, n, x, states', parent');
      AppendState(states, stateOf, queue, r, states', stateOf', queue');
    }
  }

  /** Appending a new state grows the list, the numbering and the queue by it. */
  lemma AppendState(states: seq<ItemSet>, stateOf: map<ItemSet, nat>, queue: seq<ItemSet>, r: ItemSet,
                    states': seq<ItemSet>, stateOf': map<ItemSet, nat>, queue': seq<ItemSet>)
    requires r !in stateOf
    requires states' == states + [r] && stateOf' == stateOf[r := |states'|] && queue' == queue + [r]
    ensures |states| <= |states'| && states'[..|states|] == states
    ensures stateOf.Keys <= stateOf'.Keys && stateOf'.Keys != stateOf.Keys
    ensures queue' == queue + states'[|states|..]
  {
    assert states'[|states|..] == [r];
    assert r in stateOf'.Keys;
  }

  // ---------------------------------------------------------------------------
  // The whole construction

  /** The symbols tried for a state are exactly its labels. */
  lemma OrderIsLabels(g: Grammar, s: ItemSet, symbols: set<Symbol>, sorted: seq<Symbol>, order: seq<Symbol>)
    requires ValidItems(g, s) && symbols == ExpectedSymbols(g, s)
    requires (forall y :: y in sorted <==> y in symbols) && order == OrderOf(g, symbols, sorted)
    ensures forall y :: y in order <==> y in Labels(g, s)
  {
    OrderOfElements(g, symbols, sorted);
  }

  /** Once every label of state `n` has a transition, states `1..n` are
      complete. */
  lemma CompleteNext(g: Grammar, states: seq<ItemSet>, stateOf: map<ItemSet, nat>, trans: Transitions, n: nat)
    requires 1 <= n <= |states| && CompleteUpTo(g, states, stateOf, trans, n - 1)
    requires forall y | y in Labels(g, states[n - 1]) :: y in trans[n]
    ensures CompleteUpTo(g, states, stateOf, trans, n)
  {
    forall m, y | 1 <= m <= n && y in Labels(g, states[m - 1]) ensures y in trans[m] {
      if m == n {
        assert states[m - 1] == states[n - 1];
      }
    }
  }

  /** A new state makes the construction progress. */
  lemma MoreKeys(g: Grammar, states: seq<ItemSet>, stateOf: map<ItemSet, nat>, keys: set<ItemSet>)
    requires Numbered(g, states, stateOf) && keys <= stateOf.Keys && keys != stateOf.Keys
    ensures PowerSet(AllItems(g)) - stateOf.Keys < PowerSet(AllItems(g)) - keys
  {
    KeysInPowerSet(g, states, stateOf);
    FewerMissing(PowerSet(AllItems(g)), keys, stateOf.Keys);
  }

  /** Following the transitions from state `n` along the symbols of `w`. */
  function Run(trans: Transitions, n: nat, w: seq<Symbol>): Option<nat>
    decreases |w|
  {
    if |w| == 0 then Some(n)
    else
      match Run(trans, n, w[..|w| - 1])
      case Some(k) =>
        if k in trans && w[|w| - 1] in trans[k] then Some(trans[k][w[|w| - 1]]) else None
      case None => None
  }

  /** State `m` is reached from state 1 along some word. */
  ghost predicate Reachable(trans: Transitions, m: nat) {
    exists w :: Run(trans, 1, w) == Some(m)
  }

  /** A state with a chain of parents back to state 1 is reachable. */
  lemma {:induction false} ParentsReach(states: seq<ItemSet>, trans: Transitions, parent: map<nat, (nat, Symbol)>, m: nat)
    requires Parents(states, trans, parent) && 1 <= m <= |states|
    ensures Reachable(trans, m)
    decreases m
  {
    if m == 1 {
      assert Run(trans, 1, []) == Some(1);
    } else {
      var (p, x) := parent[m];
      ParentsReach(states, trans, parent, p);
      var w :| Run(trans, 1, w) == Some(p);
      var w' := w + [x];
      assert w'[..|w'| - 1] == w;
      assert Run(trans, 1, w') == Some(m);
    }
  }

  /** Numbered states are distinct. */
  lemma NumberedDistinct(g: Grammar, states: seq<ItemSet>, stateOf: map<ItemSet, nat>)
    requires Numbered(g, states, stateOf)
    ensures forall i, j | 0 <= i < j < |states| :: states[i] != states[j]
  {
    forall i, j | 0 <= i < j < |states| ensures states[i] != states[j] {
      assert stateOf[states[i]] == i + 1 && stateOf[states[j]] == j + 1;
    }
  }

  /** What the invariant says about one recorded transition. */
  lemma EdgeFacts(g: Grammar, states: seq<ItemSet>, stateOf: map<ItemSet, nat>, trans: Transitions, n: nat, x: Symbol)
    requires GotoEdges(g, states, stateOf, trans) && n in trans && x in trans[n]
    ensures Numbered(g, states, stateOf) && 1 <= n <= |states|
    ensures GotoOf(g, states[n - 1], x) in stateOf && trans[n][x] == stateOf[GotoOf(g, states[n - 1], x)]
  {
  }

  /** A transition to the number of the goto leads to the goto. */
  lemma NumberedTarget(g: Grammar, states: seq<ItemSet>, stateOf: map<ItemSet, nat>, trans: Transitions, n: nat, x: Symbol)
    requires Numbered(g, states, stateOf) && n in trans && x in trans[n] && 1 <= n <= |states|
    requires GotoOf(g, states[n - 1], x) in stateOf && trans[n][x] == stateOf[GotoOf(g, states[n - 1], x)]
    ensures 1 <= trans[n][x] <= |states| && states[trans[n][x] - 1] == GotoOf(g, states[n - 1], x)
  {
  }

  /** Each recorded transition leads to the state that is the goto. */
  lemma EdgeTargets(g: Grammar, states: seq<ItemSet>, stateOf: map<ItemSet, nat>, trans: Transitions)
    requires GotoEdges(g, states, stateOf, trans)
    ensures forall n, x | n in trans && x in trans[n] ::
      1 <= trans[n][x] <= |states| && states[trans[n][x] - 1] == GotoOf(g, states[n - 1], x)
  {
    forall n, x | n in trans && x in trans[n]
      ensures 1 <= trans[n][x] <= |states| && states[trans[n][x] - 1] == GotoOf(g, states[n - 1], x)
    {
      EdgeFacts(g, states, stateOf, trans, n, x);
      NumberedTarget(g, states, stateOf, trans, n, x);
    }
  }

  /** Every state is reachable from the first. */
  lemma AllReachable(states: seq<ItemSet>, trans: Transitions, parent: map<nat, (nat, Symbol)>)
    requires Parents(states, trans, parent)
    ensures forall m | 1 <= m <= |states| :: Reachable(trans, m)
  {
    forall m | 1 <= m <= |states| ensures Reachable(trans, m) {
      ParentsReach(states, trans, parent, m);
    }
  }

  /** In a complete construction the rows hold exactly the labels. */
  lemma RowsAreLabels(g: Grammar, states: seq<ItemSet>, stateOf: map<ItemSet, nat>, trans: Transitions)
    requires CompleteUpTo(g, states, stateOf, trans, |states|)
    ensures forall n, x | 1 <= n <= |states| :: x in trans[n] <==> x in Labels(g, states[n - 1])
  {
  }

  /** A complete construction has the properties `BuildAutomaton` promises. */
  lemma Finish(g: Grammar, states: seq<ItemSet>, stateOf: map<ItemSet, nat>, trans: Transitions,
               parent: map<nat, (nat, Symbol)>)
    requires CompleteUpTo(g, states, stateOf, trans, |states|) && Parents(states, trans, parent)
    ensures forall i, j | 0 <= i < j < |states| :: states[i] != states[j]
    ensures forall k | 0 <= k < |states| :: ValidItems(g, states[k]) && states[k] != {}
    ensures forall n :: n in trans <==> 1 <= n <= |states|
    ensures forall n, x | 1 <= n <= |states| :: x in trans[n] <==> x in Labels(g, states[n - 1])
    ensures forall n, x | n in trans && x in trans[n] ::
      1 <= trans[n][x] <= |states| && states[trans[n][x] - 1] == GotoOf(g, states[n - 1], x)
    ensures forall m | 1 <= m <= |states| :: Reachable(trans, m)
  {
    NumberedDistinct(g, states, stateOf);
    EdgeTargets(g, states, stateOf, trans);
    AllReachable(states, trans, parent);
    RowsAreLabels(g, states, stateOf, trans);
  }

  /** The queue is the tail of the states from `n` on. */
  lemma QueueGrows(states: seq<ItemSet>, states': seq<ItemSet>, queue: seq<ItemSet>, n: nat)
    requires n <= |states| <= |states'| && states'[..|states|] == states && queue == states[n..]
    ensures queue + states'[|states|..] == states'[n..]
  {
    assert states'[n..] == states'[n..|states|] + states'[|states|..];
    assert states'[n..|states|] == states[n..];
  }

  /** The row of state `n` keeps the symbols tried so far and gains the next. */
  lemma RowGrows(trans: Transitions, trans': Transitions, n: nat, order: seq<Symbol>, j: nat)
    requires Extends(trans, trans') && n in trans && j < |order| && n in trans' && order[j] in trans'[n]
    requires forall y | y in order[..j] :: y in trans[n]
    ensures forall y | y in order[..j + 1] :: y in trans'[n]
  {
    assert order[..j + 1] == order[..j] + [order[j]];
  }

  /** Without new keys the states stay as they were. */
  lemma KeysStep(keys: set<ItemSet>, k: set<ItemSet>, k': set<ItemSet>,
                 before: seq<ItemSet>, states: seq<ItemSet>, states': seq<ItemSet>)
    requires keys <= k <= k' && (k == keys ==> states == before) && (k' == k ==> states' == states)
    ensures keys <= k' && (k' == keys ==> states' == before)
  {
  }

  /** Growing the list of states keeps its earlier entries. */
  lemma PrefixStep(before: seq<ItemSet>, states: seq<ItemSet>, states': seq<ItemSet>, n: nat)
    requires 1 <= n <= |states| && |before| <= |states| && states[..|before|] == before
    requires |states| <= |states'| && states'[..|states|] == states
    ensures |before| <= |states'| && states'[..|before|] == before
    ensures states'[0] == states[0] && states'[n - 1] == states[n - 1]
  {
    assert states'[..|before|] == states'[..|states|][..|before|];
    assert states'[0] == states'[..|states|][0] && states'[n - 1] == states'[..|states|][n - 1];
  }

  /** Lines 346-357 for every symbol of `order`, the labels of state `n`:
      afterwards states `1..n` are complete, and the states found on the way
      are appended and queued. */
  method ExpandState(g: Grammar, n: nat, order: seq<Symbol>, states: seq<ItemSet>, stateOf: map<ItemSet, nat>,
                     trans: Transitions, queue: seq<ItemSet>, ghost parent: map<nat, (nat, Symbol)>)
    returns (states': seq<ItemSet>, stateOf': map<ItemSet, nat>, trans': Transitions, queue': seq<ItemSet>,
             ghost parent': map<nat, (nat, Symbol)>)
    requires g.Valid() && 1 <= n <= |states| && queue == states[n..]
    requires CompleteUpTo(g, states, stateOf, trans, n - 1) && Parents(states, trans, parent)
    requires forall y :: y in order <==> y in Labels(g, states[n - 1])
    ensures CompleteUpTo(g, states', stateOf', trans', n) && Parents(states', trans', parent')
    ensures |states| <= |states'| && states'[..|states|] == states && queue' == states'[n..]
    ensures stateOf.Keys <= stateOf'.Keys && (stateOf'.Keys == stateOf.Keys ==> states' == states)
  {
    states', stateOf', trans', queue', parent' := states, stateOf, trans, queue, parent;
    ghost var I := states[n - 1];
    for j := 0 to |order|
      invariant n <= |states'| && states'[n - 1] == I && queue' == states'[n..]
      invariant |states| <= |states'| && states'[..|states|] == states
      invariant CompleteUpTo(g, states', stateOf', trans', n - 1) && Parents(states', trans', parent')
      invariant n in trans' && forall y | y in order[..j] :: y in trans'[n]
      invariant stateOf.Keys <= stateOf'.Keys && (stateOf'.Keys == stateOf.Keys ==> states' == states)
    {
      ghost var states0, stateOf0, trans0, queue0 := states', stateOf', trans', queue';
      assert order[j] in order;
      states', stateOf', trans', queue', parent' := AddTransition(g, n, order[j], states', stateOf', trans', queue', parent', n - 1);
      QueueGrows(states0, states', queue0, n);
      RowGrows(trans0, trans', n, order, j);
      KeysStep(stateOf.Keys, stateOf0.Keys, stateOf'.Keys, states, states0, states');
      PrefixStep(states, states0, states', n);
    }
    assert order[..|order|] == order;
    CompleteNext(g, states', stateOf', trans', n);
  }

  /** The state of the outer loop: the queue holds the states not yet
      expanded, which are the last ones found, and every state before them is
      complete. */
  ghost predicate Frontier(g: Grammar, init: ItemSet, states: seq<ItemSet>, stateOf: map<ItemSet, nat>,
                           trans: Transitions, queue: seq<ItemSet>, parent: map<nat, (nat, Symbol)>)
  {
    && |states| > 0 && states[0] == init
    && |queue| <= |states| && queue == states[|states| - |queue|..]
    && CompleteUpTo(g, states, stateOf, trans, |states| - |queue|)
    && Parents(states, trans, parent)
  }

  /** One round of the outer loop of lines 318-357: take the first state off
      the queue and expand it. Either new states were found, or the queue got
      shorter. */
  method ExpandNext(g: Grammar, ghost init: ItemSet, states: seq<ItemSet>, stateOf: map<ItemSet, nat>,
                    trans: Transitions, queue: seq<ItemSet>, ghost parent: map<nat, (nat, Symbol)>)
    returns (states': seq<ItemSet>, stateOf': map<ItemSet, nat>, trans': Transitions, queue': seq<ItemSet>,
             ghost parent': map<nat, (nat, Symbol)>)
    requires g.Valid() && queue != [] && Frontier(g, init, states, stateOf, trans, queue, parent)
    ensures Frontier(g, init, states', stateOf', trans', queue', parent')
    ensures stateOf.Keys <= stateOf'.Keys && (stateOf'.Keys == stateOf.Keys ==> |queue'| < |queue|)
  {
    var I := queue[0];
    var rest := queue[1..];
    var n := stateOf[I];
    FrontierHead(g, init, states, stateOf, trans, queue, parent, I, rest, n);
    var symbols := CollectSymbols(g, I);
    var sorted := SortSymbols(symbols);
    var order := OrderSymbols(g, symbols, sorted);
    OrderIsLabels(g, I, symbols, sorted, order);
    states', stateOf', trans', queue', parent' := ExpandState(g, n, order, states, stateOf, trans, rest, parent);
    FrontierNext(g, init, states, stateOf, queue, n, states', stateOf', trans', queue', parent');
  }

  /** The head of the queue is the first state not yet expanded. */
  lemma FrontierHead(g: Grammar, init: ItemSet, states: seq<ItemSet>, stateOf: map<ItemSet, nat>,
                     trans: Transitions, queue: seq<ItemSet>, parent: map<nat, (nat, Symbol)>,
                     I: ItemSet, rest: seq<ItemSet>, n: nat)
    requires queue != [] && Frontier(g, init, states, stateOf, trans, queue, parent)
    requires I == queue[0] && rest == queue[1..] && I in stateOf && n == stateOf[I]
    ensures 1 <= n <= |states| && states[n - 1] == I && rest == states[n..]
    ensures CompleteUpTo(g, states, stateOf, trans, n - 1) && Parents(states, trans, parent)
  {
    assert states[|states| - |rest| - 1] == I;
  }

  /** Once the head is expanded, the queue again holds the states not yet
      expanded. */
  lemma FrontierNext(g: Grammar, init: ItemSet, states: seq<ItemSet>, stateOf: map<ItemSet, nat>,
                     queue: seq<ItemSet>, n: nat,
                     states': seq<ItemSet>, stateOf': map<ItemSet, nat>, trans': Transitions,
                     queue': seq<ItemSet>, parent': map<nat, (nat, Symbol)>)
    requires |states| > 0 && states[0] == init && 1 <= n <= |states| && queue == states[n - 1..]
    requires CompleteUpTo(g, states', stateOf', trans', n) && Parents(states', trans', parent')
    requires |states| <= |states'| && states'[..|states|] == states && queue' == states'[n..]
    requires stateOf.Keys <= stateOf'.Keys && (stateOf'.Keys == stateOf.Keys ==> states' == states)
    ensures Frontier(g, init, states', stateOf', trans', queue', parent')
    ensures stateOf.Keys <= stateOf'.Keys && (stateOf'.Keys == stateOf.Keys ==> |queue'| < |queue|)
  {
    PrefixStep(states, states, states', 1);
  }

  /** `construir_automato_lr0` (lines 306-361): starting from the closure of
      the start item, expand the states in the order they are found; for each
      state, try its symbols in the order of `OrderOf`, numbering each new goto
      as the next state. The result is a list of distinct non-empty states,
      the first being the closure of the start item, and a transition map with
      a row per state whose entries are exactly the labels of the state, each
      leading to the state that is the goto over that label. */
  method BuildAutomaton(g: Grammar) returns (states: seq<ItemSet>, trans: Transitions)
    requires g.Valid() && |g.productions| > 0
    ensures |states| > 0 && states[0] == ClosureOf(g, {Item(0, 0)})
    ensures forall i, j | 0 <= i < j < |states| :: states[i] != states[j]
    ensures forall k | 0 <= k < |states| :: ValidItems(g, states[k]) && states[k] != {}
    ensures forall n :: n in trans <==> 1 <= n <= |states|
    ensures forall n, x | 1 <= n <= |states| :: x in trans[n] <==> x in Labels(g, states[n - 1])
    ensures forall n, x | n in trans && x in trans[n] ::
      1 <= trans[n][x] <= |states| && states[trans[n][x] - 1] == GotoOf(g, states[n - 1], x)
    ensures forall m | 1 <= m <= |states| :: Reachable(trans, m)
  {
    var init := Closure(g, {Item(0, 0)});
    assert Item(0, 0) in init;
    states := [init];
    var stateOf := map[init := 1];
    var queue := [init];
    trans := map[1 := map[]];
    ghost var parent: map<nat, (nat, Symbol)> := map[];
    while queue != []
      invariant Frontier(g, init, states, stateOf, trans, queue, parent)
      decreases PowerSet(AllItems(g)) - stateOf.Keys, |queue|
    {
      ghost var keys := stateOf.Keys;
      states, stateOf, trans, queue, parent := ExpandNext(g, init, states, stateOf, trans, queue, parent);
      if stateOf.Keys != keys {
        MoreKeys(g, states, stateOf, keys);
      }
    }
    Finish(g, states, stateOf, trans, parent);
  }
}
