/** The FIRST sets (`calcular_conjuntos_first`): a `while mudou` fixed point over
    a map from symbols to sets of symbols, where the empty string marks epsilon. */
module FirstSets {
  import opened GrammarModel

  /** The epsilon marker `''`. */
  const Epsilon: Symbol := ""

  type SymbolSets = map<Symbol, set<Symbol>>

  /** The symbols that get a FIRST entry: non-terminals, left sides, terminals. */
  function FirstKeys(g: Grammar): set<Symbol> {
    (set s | s in g.nonterminals) + LeftSymbols(g.productions) + (set t | t in g.terminals)
  }

  /** Every symbol that occurs on some right side. */
  function RightSymbols(prods: seq<Production>): set<Symbol> {
    set i, j | 0 <= i < |prods| && 0 <= j < |prods[i].right| :: prods[i].right[j]
  }

  /** The starting map (lines 190-197): the empty set for non-terminals and left
      sides, `{t}` for each terminal `t`. */
  function InitialFirst(g: Grammar): SymbolSets {
    map s | s in FirstKeys(g) :: if s in g.terminals then {s} else {}
  }

  /** `b` holds the same keys as `a` and each of its sets contains `a`'s. */
  ghost predicate Grows(a: SymbolSets, b: SymbolSets) {
    a.Keys == b.Keys && forall k | k in a :: a[k] <= b[k]
  }

  /** The set the scan of one production `a -> rhs` (lines 205-218) leaves in
      `first[a]`, starting from `acc`: each symbol's FIRST minus epsilon is added
      while the symbols so far are nullable; a symbol without an entry is added
      as itself and stops the scan; epsilon is added when every symbol is
      nullable (in particular for an empty right side). `first[a]` is the set
      being updated, so a look-up of `a` itself sees `acc`. */
  function ScanFirst(f: SymbolSets, a: Symbol, rhs: seq<Symbol>, acc: set<Symbol>): set<Symbol>
    requires a in f
  {
    if |rhs| == 0 then acc + {Epsilon}
    else
      var sim := rhs[0];
      if sim in f then
        var fs := if sim == a then acc else f[sim];
        var grown := acc + (fs - {Epsilon});
        if Epsilon in fs then ScanFirst(f, a, rhs[1..], grown) else grown
      else acc + {sim}
  }

  /** One production's update of the map. */
  function FirstStep(f: SymbolSets, p: Production): SymbolSets
    requires p.left in f
  {
    f[p.left := ScanFirst(f, p.left, p.right, f[p.left])]
  }

  ghost predicate LeftsAreKeys(f: SymbolSets, prods: seq<Production>) {
    forall i | 0 <= i < |prods| :: prods[i].left in f
  }

  /** One full pass of the `for` loop over the productions, in order. */
  function FirstPass(f: SymbolSets, prods: seq<Production>): (r: SymbolSets)
    requires LeftsAreKeys(f, prods)
    ensures r.Keys == f.Keys
  {
    if |prods| == 0 then f
    else
      var last := |prods| - 1;
      var before := FirstPass(f, prods[..last]);
      FirstStep(before, prods[last])
  }

  // ---------------------------------------------------------------------------
  // The scan only adds

  lemma {:induction false} ScanFirstGrows(f: SymbolSets, a: Symbol, rhs: seq<Symbol>, acc: set<Symbol>)
    requires a in f
    ensures acc <= ScanFirst(f, a, rhs, acc)
    decreases |rhs|
  {
    if |rhs| > 0 && rhs[0] in f {
      var fs := if rhs[0] == a then acc else f[rhs[0]];
      if Epsilon in fs {
        ScanFirstGrows(f, a, rhs[1..], acc + (fs - {Epsilon}));
      }
    }
  }

  lemma FirstStepGrows(f: SymbolSets, p: Production)
    requires p.left in f
    ensures Grows(f, FirstStep(f, p))
  {
    ScanFirstGrows(f, p.left, p.right, f[p.left]);
  }

  lemma GrowsTransitive(a: SymbolSets, b: SymbolSets, c: SymbolSets)
    requires Grows(a, b) && Grows(b, c)
    ensures Grows(a, c)
  {
  }

  /** Each prefix of a pass only adds to the map, and a longer prefix adds more. */
  lemma {:induction false} FirstPassGrows(f: SymbolSets, prods: seq<Production>, i: nat)
    requires LeftsAreKeys(f, prods)
    requires i <= |prods|
    ensures LeftsAreKeys(f, prods[..i])
    ensures Grows(FirstPass(f, prods[..i]), FirstPass(f, prods))
    ensures Grows(f, FirstPass(f, prods))
    decreases |prods|
  {
    if |prods| == 0 {
      assert prods[..i] == prods;
    } else {
      var last := |prods| - 1;
      var init := prods[..last];
      assert LeftsAreKeys(f, init) by {
        forall j | 0 <= j < last ensures init[j].left in f {
          assert init[j] == prods[j];
        }
      }
      var before := FirstPass(f, init);
      FirstStepGrows(before, prods[last]);
      if i == |prods| {
        assert prods[..i] == prods;
      } else {
        FirstPassGrows(f, init, i);
        assert init[..i] == prods[..i];
        GrowsTransitive(FirstPass(f, prods[..i]), before, FirstPass(f, prods));
      }
      FirstPassGrows(f, init, last);
      GrowsTransitive(f, before, FirstPass(f, prods));
    }
  }

  // ---------------------------------------------------------------------------
  // What the sets contain

  /** An element of a FIRST set: epsilon, a terminal, or a right-side symbol that
      has no entry of its own (such as an undeclared end marker). */
  predicate FirstElement(g: Grammar, x: Symbol) {
    x == Epsilon || x in g.terminals || (x !in FirstKeys(g) && x in RightSymbols(g.productions))
  }

  ghost predicate FirstElementsOnly(g: Grammar, f: SymbolSets) {
    forall k, x | k in f && x in f[k] :: FirstElement(g, x)
  }

  lemma {:induction false} ScanFirstElements(g: Grammar, f: SymbolSets, a: Symbol, rhs: seq<Symbol>, acc: set<Symbol>)
    requires a in f && f.Keys == FirstKeys(g) && FirstElementsOnly(g, f)
    requires forall j | 0 <= j < |rhs| :: rhs[j] in RightSymbols(g.productions)
    requires forall x | x in acc :: FirstElement(g, x)
    ensures forall x | x in ScanFirst(f, a, rhs, acc) :: FirstElement(g, x)
    decreases |rhs|
  {
    if |rhs| > 0 && rhs[0] in f {
      var fs := if rhs[0] == a then acc else f[rhs[0]];
      if Epsilon in fs {
        ScanFirstElements(g, f, a, rhs[1..], acc + (fs - {Epsilon}));
      }
    }
  }

  lemma FirstStepElements(g: Grammar, f: SymbolSets, i: nat)
    requires i < |g.productions|
    requires f.Keys == FirstKeys(g) && FirstElementsOnly(g, f)
    ensures g.productions[i].left in f
    ensures FirstElementsOnly(g, FirstStep(f, g.productions[i]))
  {
    var p := g.productions[i];
    assert p.left in LeftSymbols(g.productions);
    forall j | 0 <= j < |p.right| ensures p.right[j] in RightSymbols(g.productions) {
      assert g.productions[i].right[j] == p.right[j];
    }
    ScanFirstElements(g, f, p.left, p.right, f[p.left]);
  }

  /** All elements of the universe the sets are drawn from. */
  function FirstUniverse(g: Grammar): set<Symbol> {
    {Epsilon} + (set t | t in g.terminals) + RightSymbols(g.productions)
  }

  /** The (key, element) pairs still absent from the map, for elements drawn from
      `universe`: the termination measure of the fixed-point loops. */
  function MissingIn(universe: set<Symbol>, f: SymbolSets): set<(Symbol, Symbol)> {
    set k, x | k in f.Keys && x in universe && x !in f[k] :: (k, x)
  }

  /** A pass that changes a map bounded by the universe removes missing pairs. */
  lemma MissingShrinks(universe: set<Symbol>, f: SymbolSets, h: SymbolSets)
    requires Grows(f, h) && f != h
    requires forall k | k in h :: h[k] <= universe
    ensures MissingIn(universe, h) < MissingIn(universe, f)
  {
    var k :| k in f && f[k] != h[k];
    var x :| x in h[k] && x !in f[k];
    assert (k, x) in MissingIn(universe, f);
    assert (k, x) !in MissingIn(universe, h);
    forall pair | pair in MissingIn(universe, h) ensures pair in MissingIn(universe, f) {
      var (k', x') := pair;
      assert x' !in f[k'];
    }
  }

  lemma FirstElementsInUniverse(g: Grammar, f: SymbolSets)
    requires FirstElementsOnly(g, f)
    ensures forall k | k in f :: f[k] <= FirstUniverse(g)
  {
    forall k, x | k in f && x in f[k] ensures x in FirstUniverse(g) {
      assert FirstElement(g, x);
    }
  }

  // ---------------------------------------------------------------------------
  // The methods

  /** The loop over one right side, with its `break`s and its `else` (lines 205-218). */
  method ScanProduction(first: SymbolSets, a: Symbol, rhs: seq<Symbol>) returns (s: set<Symbol>)
    requires a in first
    ensures s == ScanFirst(first, a, rhs, first[a])
  {
    s := first[a];
    var j := 0;
    var stopped := false;
    while j < |rhs| && !stopped
      invariant 0 <= j <= |rhs|
      invariant stopped ==> s == ScanFirst(first, a, rhs, first[a])
      invariant !stopped ==> ScanFirst(first, a, rhs, first[a]) == ScanFirst(first, a, rhs[j..], s)
      decreases |rhs| - j
    {
      var sim := rhs[j];
      assert rhs[j..][1..] == rhs[j + 1..];
      if sim in first {
        var fs := if sim == a then s else first[sim];
        s := s + (fs - {Epsilon});
        if Epsilon !in fs {
          stopped := true;
        }
      } else {
        s := s + {sim};
        stopped := true;
      }
      j := j + 1;
    }
    if !stopped {
      s := s + {Epsilon};
    }
  }

  /** One pass over the productions; `changed` reports whether some set grew. */
  method FirstPassLoop(first: SymbolSets, prods: seq<Production>) returns (next: SymbolSets, changed: bool)
    requires LeftsAreKeys(first, prods)
    ensures next == FirstPass(first, prods)
    ensures Grows(first, next)
    ensures changed <==> next != first
  {
    next := first;
    changed := false;
    var i := 0;
    while i < |prods|
      invariant 0 <= i <= |prods|
      invariant LeftsAreKeys(first, prods[..i])
      invariant next == FirstPass(first, prods[..i])
      invariant Grows(first, next)
      invariant changed <==> next != first
    {
      var p := prods[i];
      assert prods[..i + 1][..i] == prods[..i];
      assert LeftsAreKeys(first, prods[..i + 1]);
      var prev := next[p.left];
      var s := ScanProduction(next, p.left, p.right);
      FirstStepGrows(next, p);
      GrowsTransitive(first, next, next[p.left := s]);
      if prev != s {
        changed := true;
        assert next[p.left := s][p.left] != next[p.left];
      }
      next := next[p.left := s];
      i := i + 1;
    }
    assert prods[..i] == prods;
  }

  /** The initial map, built by the three loops of lines 190-197. */
  method InitializeFirst(g: Grammar) returns (first: SymbolSets)
    ensures first == InitialFirst(g)
  {
    first := map[];
    var i := 0;
    while i < |g.nonterminals|
      invariant 0 <= i <= |g.nonterminals|
      invariant first == map s | s in g.nonterminals[..i] :: {}
    {
      first := first[g.nonterminals[i] := {}];
      assert g.nonterminals[..i + 1] == g.nonterminals[..i] + [g.nonterminals[i]];
      i := i + 1;
    }
    assert g.nonterminals[..i] == g.nonterminals;
    first := AddLeftSides(g, first);
    first := AddTerminals(g, first);
  }

  /** Lines 192-194: an empty set for each left side not yet present. */
  method AddLeftSides(g: Grammar, first: SymbolSets) returns (first': SymbolSets)
    requires first == map s | s in g.nonterminals :: {}
    ensures first'.Keys == (set s | s in g.nonterminals) + LeftSymbols(g.productions)
    ensures forall k | k in first' :: first'[k] == {}
  {
    first' := first;
    var i := 0;
    while i < |g.productions|
      invariant 0 <= i <= |g.productions|
      invariant first'.Keys == (set s | s in g.nonterminals) + LeftSymbols(g.productions[..i])
      invariant forall k | k in first' :: first'[k] == {}
    {
      if g.productions[i].left !in first' {
        first' := first'[g.productions[i].left := {}];
      }
      LeftSymbolsSnoc(g.productions, i);
      i := i + 1;
    }
    assert g.productions[..i] == g.productions;
  }

  /** Lines 196-197: `{t}` for each terminal `t`. */
  method AddTerminals(g: Grammar, first: SymbolSets) returns (first': SymbolSets)
    requires first.Keys == (set s | s in g.nonterminals) + LeftSymbols(g.productions)
    requires forall k | k in first :: first[k] == {}
    ensures first' == InitialFirst(g)
  {
    first' := first;
    var i := 0;
    while i < |g.terminals|
      invariant 0 <= i <= |g.terminals|
      invariant first'.Keys == (set s | s in g.nonterminals) + LeftSymbols(g.productions) + (set t | t in g.terminals[..i])
      invariant forall k | k in first' :: first'[k] == if k in g.terminals[..i] then {k} else {}
    {
      first' := first'[g.terminals[i] := {g.terminals[i]}];
      assert g.terminals[..i + 1] == g.terminals[..i] + [g.terminals[i]];
      i := i + 1;
    }
    assert g.terminals[..i] == g.terminals;
  }

  // ---------------------------------------------------------------------------
  // The least solution

  /** A map closed under the FIRST rules: the keys of the result, the initial
      sets, and a pass changes nothing. */
  ghost predicate FirstSolution(g: Grammar, s: SymbolSets) {
    && s.Keys == FirstKeys(g)
    && LeftsAreKeys(s, g.productions)
    && Grows(InitialFirst(g), s)
    && FirstPass(s, g.productions) == s
  }

  lemma {:induction false} ScanFirstMonotone(f: SymbolSets, h: SymbolSets, a: Symbol, rhs: seq<Symbol>,
                                             acc: set<Symbol>, acch: set<Symbol>)
    requires a in f && Grows(f, h) && acc <= acch
    ensures ScanFirst(f, a, rhs, acc) <= ScanFirst(h, a, rhs, acch)
    decreases |rhs|
  {
    if |rhs| > 0 && rhs[0] in f {
      var sim := rhs[0];
      var fs := if sim == a then acc else f[sim];
      var fsh := if sim == a then acch else h[sim];
      var grownh := acch + (fsh - {Epsilon});
      if Epsilon in fs {
        ScanFirstMonotone(f, h, a, rhs[1..], acc + (fs - {Epsilon}), grownh);
      } else if Epsilon in fsh {
        ScanFirstGrows(h, a, rhs[1..], grownh);
      }
    }
  }

  lemma {:induction false} FirstPassMonotone(f: SymbolSets, h: SymbolSets, prods: seq<Production>)
    requires LeftsAreKeys(f, prods) && Grows(f, h)
    ensures LeftsAreKeys(h, prods)
    ensures Grows(FirstPass(f, prods), FirstPass(h, prods))
    decreases |prods|
  {
    if |prods| > 0 {
      var last := |prods| - 1;
      var init := prods[..last];
      assert LeftsAreKeys(f, init) by {
        forall j | 0 <= j < last ensures init[j].left in f {
          assert init[j] == prods[j];
        }
      }
      FirstPassMonotone(f, h, init);
      var a := FirstPass(f, init);
      var b := FirstPass(h, init);
      var p := prods[last];
      ScanFirstMonotone(a, b, p.left, p.right, a[p.left], b[p.left]);
    }
  }

  /** `calcular_conjuntos_first` (lines 186-223): passes are repeated until one
      changes nothing. The result has an entry exactly for the non-terminals,
      left sides and terminals; another pass leaves it unchanged; a terminal that
      is never a left side keeps `{t}`; every set contains its initial value and
      holds only epsilon, terminals and right-side symbols without an entry. */
  method ComputeFirst(g: Grammar) returns (first: SymbolSets)
    ensures first.Keys == FirstKeys(g)
    ensures LeftsAreKeys(first, g.productions)
    ensures FirstPass(first, g.productions) == first
    ensures forall t | t in g.terminals && t !in LeftSymbols(g.productions) :: first[t] == {t}
    ensures Grows(InitialFirst(g), first)
    ensures FirstElementsOnly(g, first)
    ensures FirstSolution(g, first)
    ensures forall s | FirstSolution(g, s) :: Grows(first, s)
    ensures FirstRulesHold(g, first)
    ensures forall s | FirstRulesHold(g, s) :: Grows(first, s)
  {
    first := InitializeFirst(g);
    assert LeftsAreKeys(first, g.productions) by {
      forall i | 0 <= i < |g.productions| ensures g.productions[i].left in first {
        assert g.productions[i].left in LeftSymbols(g.productions);
      }
    }
    var changed := true;
    while changed
      invariant first.Keys == FirstKeys(g)
      invariant LeftsAreKeys(first, g.productions)
      invariant Grows(InitialFirst(g), first)
      invariant FirstElementsOnly(g, first)
      invariant forall t | t in g.terminals && t !in LeftSymbols(g.productions) :: first[t] == {t}
      invariant !changed ==> FirstPass(first, g.productions) == first
      invariant forall s | FirstSolution(g, s) :: Grows(first, s)
      decreases MissingIn(FirstUniverse(g), first), changed
    {
      var next, c := FirstPassLoop(first, g.productions);
      forall s | FirstSolution(g, s) ensures Grows(next, s) {
        FirstPassMonotone(first, s, g.productions);
      }
      FirstPassPreserves(g, first);
      if c {
        FirstElementsInUniverse(g, next);
        MissingShrinks(FirstUniverse(g), first, next);
      }
      GrowsTransitive(InitialFirst(g), first, next);
      first := next;
      changed := c;
    }
    FirstSolutionIffRules(g, first);
    forall s | FirstRulesHold(g, s) ensures Grows(first, s) {
      FirstSolutionIffRules(g, s);
    }
  }

  /** A pass keeps the entries, the element bound, and `{t}` for a terminal that is
      never a left side. */
  lemma FirstPassPreserves(g: Grammar, f: SymbolSets)
    requires f.Keys == FirstKeys(g) && LeftsAreKeys(f, g.productions)
    requires FirstElementsOnly(g, f)
    ensures FirstElementsOnly(g, FirstPass(f, g.productions))
    ensures forall t | t !in LeftSymbols(g.productions) && t in f :: FirstPass(f, g.productions)[t] == f[t]
  {
    FirstPassPrefixPreserves(g, f, |g.productions|);
    assert g.productions[..|g.productions|] == g.productions;
  }

  lemma {:induction false} FirstPassPrefixPreserves(g: Grammar, f: SymbolSets, i: nat)
    requires i <= |g.productions|
    requires f.Keys == FirstKeys(g) && LeftsAreKeys(f, g.productions)
    requires FirstElementsOnly(g, f)
    ensures LeftsAreKeys(f, g.productions[..i])
    ensures FirstElementsOnly(g, FirstPass(f, g.productions[..i]))
    ensures forall t | t !in LeftSymbols(g.productions) && t in f :: FirstPass(f, g.productions[..i])[t] == f[t]
  {
    LeftsAreKeysPrefix(f, g.productions, i);
    if i > 0 {
      var pre := g.productions[..i];
      FirstPassPrefixPreserves(g, f, i - 1);
      LeftsAreKeysPrefix(f, g.productions, i - 1);
      assert pre[..i - 1] == g.productions[..i - 1];
      var before := FirstPass(f, g.productions[..i - 1]);
      assert pre[i - 1] == g.productions[i - 1];
      assert FirstPass(f, pre) == FirstStep(before, g.productions[i - 1]);
      FirstStepElements(g, before, i - 1);
      assert g.productions[i - 1].left in LeftSymbols(g.productions);
    }
  }

  lemma LeftsAreKeysPrefix(f: SymbolSets, prods: seq<Production>, i: nat)
    requires LeftsAreKeys(f, prods) && i <= |prods|
    ensures LeftsAreKeys(f, prods[..i])
  {
    forall j | 0 <= j < i ensures prods[..i][j].left in f {
      assert prods[..i][j] == prods[j];
    }
  }

  // ---------------------------------------------------------------------------
  // What a fixed point means

  /** A symbol with an entry whose set holds epsilon. */
  predicate Nullable(f: SymbolSets, x: Symbol) {
    x in f && Epsilon in f[x]
  }

  /** The first `j` symbols of `rhs` are all nullable. */
  predicate NullablePrefix(f: SymbolSets, rhs: seq<Symbol>, j: nat)
    requires j <= |rhs|
  {
    forall m | 0 <= m < j :: Nullable(f, rhs[m])
  }

  /** The FIRST rule of one production `a -> rhs`: epsilon is in FIRST(a) when the
      whole right side is nullable, and for each symbol reached through a nullable
      prefix, its FIRST minus epsilon (or the symbol itself when it has no entry)
      is in FIRST(a). */
  ghost predicate FirstRule(f: SymbolSets, a: Symbol, rhs: seq<Symbol>)
    requires a in f
  {
    && (NullablePrefix(f, rhs, |rhs|) ==> Epsilon in f[a])
    && forall j | 0 <= j < |rhs| && NullablePrefix(f, rhs, j) ::
         && (rhs[j] in f ==> f[rhs[j]] - {Epsilon} <= f[a])
         && (rhs[j] !in f ==> rhs[j] in f[a])
  }

  lemma GrowsAntisymmetric(a: SymbolSets, b: SymbolSets)
    requires Grows(a, b) && Grows(b, a)
    ensures a == b
  {
    forall k | k in a ensures a[k] == b[k] { }
  }

  /** When a whole pass changes nothing, neither does any prefix of it. */
  lemma StablePassPrefix(f: SymbolSets, prods: seq<Production>, i: nat)
    requires LeftsAreKeys(f, prods) && FirstPass(f, prods) == f
    requires i <= |prods|
    ensures LeftsAreKeys(f, prods[..i])
    ensures FirstPass(f, prods[..i]) == f
  {
    FirstPassGrows(f, prods, i);
    FirstPassGrows(f, prods[..i], i);
    assert prods[..i][..i] == prods[..i];
    GrowsAntisymmetric(f, FirstPass(f, prods[..i]));
  }

  /** When a whole pass changes nothing, no single production's update does. */
  lemma StablePassStep(f: SymbolSets, prods: seq<Production>, i: nat)
    requires LeftsAreKeys(f, prods) && FirstPass(f, prods) == f
    requires i < |prods|
    ensures prods[i].left in f
    ensures ScanFirst(f, prods[i].left, prods[i].right, f[prods[i].left]) == f[prods[i].left]
  {
    StablePassPrefix(f, prods, i);
    StablePassPrefix(f, prods, i + 1);
    var pre1 := prods[..i + 1];
    assert pre1[..i] == prods[..i];
    assert pre1[i] == prods[i];
    assert FirstStep(f, prods[i])[prods[i].left] == f[prods[i].left];
  }

  /** A scan that leaves `first[a]` unchanged shows the FIRST rule of `a -> rhs`. */
  lemma {:induction false} StableScanRule(f: SymbolSets, a: Symbol, rhs: seq<Symbol>)
    requires a in f && ScanFirst(f, a, rhs, f[a]) == f[a]
    ensures FirstRule(f, a, rhs)
    decreases |rhs|
  {
    var acc := f[a];
    if |rhs| > 0 {
      var sim := rhs[0];
      if sim in f {
        var fs := f[sim];
        var grown := acc + (fs - {Epsilon});
        if Epsilon in fs {
          ScanFirstGrows(f, a, rhs[1..], grown);
          assert grown == acc;
          StableScanRule(f, a, rhs[1..]);
          var rest := rhs[1..];
          forall j | 0 <= j < |rhs| && NullablePrefix(f, rhs, j)
            ensures rhs[j] in f ==> f[rhs[j]] - {Epsilon} <= acc
            ensures rhs[j] !in f ==> rhs[j] in acc
          {
            if j > 0 {
              assert rhs[j] == rest[j - 1];
              assert NullablePrefix(f, rest, j - 1) by {
                forall m | 0 <= m < j - 1 ensures Nullable(f, rest[m]) {
                  assert rest[m] == rhs[m + 1];
                }
              }
            }
          }
          if NullablePrefix(f, rhs, |rhs|) {
            assert NullablePrefix(f, rest, |rest|) by {
              forall m | 0 <= m < |rest| ensures Nullable(f, rest[m]) {
                assert rest[m] == rhs[m + 1];
              }
            }
          }
        } else {
          assert !Nullable(f, rhs[0]);
          assert !NullablePrefix(f, rhs, |rhs|);
          forall j | 0 < j < |rhs| ensures !NullablePrefix(f, rhs, j) {
            assert !Nullable(f, rhs[0]);
          }
        }
      } else {
        assert !Nullable(f, rhs[0]);
        forall j | 0 < j <= |rhs| ensures !NullablePrefix(f, rhs, j) {
          assert !Nullable(f, rhs[0]);
        }
      }
    }
  }

  /** The result of the loop satisfies the FIRST rule of every production: in
      particular epsilon is in FIRST(A) for every `A -> []` and for every
      production whose right side is entirely nullable. */
  lemma FixedPointFirstRules(g: Grammar, f: SymbolSets)
    requires LeftsAreKeys(f, g.productions) && FirstPass(f, g.productions) == f
    ensures forall i | 0 <= i < |g.productions| ::
      g.productions[i].left in f && FirstRule(f, g.productions[i].left, g.productions[i].right)
  {
    forall i | 0 <= i < |g.productions|
      ensures g.productions[i].left in f && FirstRule(f, g.productions[i].left, g.productions[i].right)
    {
      StablePassStep(f, g.productions, i);
      StableScanRule(f, g.productions[i].left, g.productions[i].right);
    }
  }

  /** The special case of an epsilon production. */
  lemma FixedPointEpsilonProduction(g: Grammar, f: SymbolSets, i: nat)
    requires LeftsAreKeys(f, g.productions) && FirstPass(f, g.productions) == f
    requires i < |g.productions| && g.productions[i].right == []
    ensures Epsilon in f[g.productions[i].left]
  {
    FixedPointFirstRules(g, f);
    assert FirstRule(f, g.productions[i].left, g.productions[i].right);
  }

  // ---------------------------------------------------------------------------
  // The rules alone determine the fixed points

  /** A map that has the entries of the result, contains the initial sets and
      satisfies the FIRST rule of every production. */
  ghost predicate FirstRulesHold(g: Grammar, s: SymbolSets) {
    && s.Keys == FirstKeys(g)
    && Grows(InitialFirst(g), s)
    && forall i | 0 <= i < |g.productions| ::
         g.productions[i].left in s && FirstRule(s, g.productions[i].left, g.productions[i].right)
  }

  /** Conversely to `StableScanRule`: when the FIRST rule of `a -> rhs` holds,
      the scan of that production adds nothing to `first[a]`. */
  lemma {:induction false} RuleStableScan(f: SymbolSets, a: Symbol, rhs: seq<Symbol>)
    requires a in f && FirstRule(f, a, rhs)
    ensures ScanFirst(f, a, rhs, f[a]) == f[a]
    decreases |rhs|
  {
    if |rhs| > 0 {
      var sim := rhs[0];
      assert NullablePrefix(f, rhs, 0);
      if sim in f && Epsilon in f[sim] {
        var rest := rhs[1..];
        forall j | 0 <= j <= |rest| && NullablePrefix(f, rest, j) ensures NullablePrefix(f, rhs, j + 1) {
          forall m | 0 <= m < j + 1 ensures Nullable(f, rhs[m]) {
            if m > 0 {
              assert rhs[m] == rest[m - 1];
            }
          }
        }
        assert FirstRule(f, a, rest) by {
          forall j | 0 <= j < |rest| && NullablePrefix(f, rest, j)
            ensures rest[j] in f ==> f[rest[j]] - {Epsilon} <= f[a]
            ensures rest[j] !in f ==> rest[j] in f[a]
          {
            assert rest[j] == rhs[j + 1];
          }
        }
        assert f[a] + (f[sim] - {Epsilon}) == f[a];
        RuleStableScan(f, a, rest);
      }
    }
  }

  /** When every production's FIRST rule holds, no prefix of a pass changes
      the map. */
  lemma {:induction false} RulesStablePass(f: SymbolSets, prods: seq<Production>, i: nat)
    requires LeftsAreKeys(f, prods) && i <= |prods|
    requires forall k | 0 <= k < |prods| :: prods[k].left in f && FirstRule(f, prods[k].left, prods[k].right)
    ensures LeftsAreKeys(f, prods[..i])
    ensures FirstPass(f, prods[..i]) == f
  {
    LeftsAreKeysPrefix(f, prods, i);
    if i > 0 {
      RulesStablePass(f, prods, i - 1);
      var pre := prods[..i];
      assert pre[..i - 1] == prods[..i - 1] && pre[i - 1] == prods[i - 1];
      RuleStableScan(f, prods[i - 1].left, prods[i - 1].right);
      assert FirstStep(f, prods[i - 1]) == f;
    }
  }

  /** The maps a pass leaves unchanged are exactly the maps that satisfy the
      FIRST rules, so the least of them is the least solution of the rules. */
  lemma FirstSolutionIffRules(g: Grammar, s: SymbolSets)
    ensures FirstSolution(g, s) <==> FirstRulesHold(g, s)
  {
    if FirstSolution(g, s) {
      FixedPointFirstRules(g, s);
    }
    if FirstRulesHold(g, s) {
      RulesStablePass(s, g.productions, |g.productions|);
      assert g.productions[..|g.productions|] == g.productions;
    }
  }
}
