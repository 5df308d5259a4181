/** The FOLLOW sweep of `calcular_conjuntos_follow` as written, with Python's
    aliasing: after a reset, `trailer` is the FIRST set object itself (lines
    258 and 265), so a later `trailer |= ...` (line 255) extends that FIRST
    set in place. `FollowSets` models the evidently intended sweep, where the
    trailer is always a copy; this module shows on a small grammar that the
    two differ, and that they agree whenever the sweep leaves FIRST alone. */
module FollowAliasing {
  import opened GrammarModel
  import opened FirstSets
  import opened FollowSets

  /** The trailer of the sweep: a set of its own, or a FIRST set shared with
      the map of FIRST sets. */
  datatype Trailer = Copy(elems: set<Symbol>) | Alias(of: Symbol)

  /** Every shared FIRST set exists. */
  predicate Bound(fi: SymbolSets, tr: Trailer) {
    tr.Alias? ==> tr.of in fi
  }

  /** The elements the trailer currently holds. */
  function Current(fi: SymbolSets, tr: Trailer): set<Symbol>
    requires Bound(fi, tr)
  {
    match tr
    case Copy(s) => s
    case Alias(x) => fi[x]
  }

  /** `trailer = first[sim]` when `sim` has a FIRST set, otherwise `{sim}`. */
  function ResetAsWritten(fi: SymbolSets, sim: Symbol): (tr: Trailer)
    ensures Bound(fi, tr) && Current(fi, tr) == Reset(fi, sim)
  {
    if sim in fi then Alias(sim) else Copy({sim})
  }

  /** `trailer |= extra`: a shared FIRST set grows in place. */
  function ExtendAsWritten(fi: SymbolSets, tr: Trailer, extra: set<Symbol>): (r: (SymbolSets, Trailer))
    requires Bound(fi, tr)
    ensures Bound(r.0, r.1) && Current(r.0, r.1) == Current(fi, tr) + extra
    ensures Grows(fi, r.0)
  {
    match tr
    case Copy(s) => (fi, Copy(s + extra))
    case Alias(x) => (fi[x := fi[x] + extra], tr)
  }

  /** The sweep over `rhs[..i]`, right to left, as the source runs it: the
      FIRST sets and the FOLLOW sets afterwards. */
  function ScanFollowAsWritten(fi: SymbolSets, nts: seq<Symbol>, fo: SymbolSets, rhs: seq<Symbol>, i: nat,
                               tr: Trailer): (r: (SymbolSets, SymbolSets))
    requires i <= |rhs| && Bound(fi, tr)
    ensures fo.Keys <= r.1.Keys
    decreases i
  {
    if i == 0 then (fi, fo)
    else
      var sim := rhs[i - 1];
      if Tracked(nts, fo.Keys, sim) then
        var prior := if sim in fo then fo[sim] else {};
        var fo' := fo[sim := prior + Current(fi, tr)];
        if sim in fi && Epsilon in fi[sim] then
          var (fi', tr') := ExtendAsWritten(fi, tr, fi[sim] - {Epsilon});
          ScanFollowAsWritten(fi', nts, fo', rhs, i - 1, tr')
        else
          ScanFollowAsWritten(fi, nts, fo', rhs, i - 1, ResetAsWritten(fi, sim))
      else
        ScanFollowAsWritten(fi, nts, fo, rhs, i - 1, ResetAsWritten(fi, sim))
  }

  /** One production's sweep as written; the trailer starts as a copy of
      FOLLOW(left). */
  function FollowStepAsWritten(fi: SymbolSets, nts: seq<Symbol>, fo: SymbolSets, p: Production): (r: (SymbolSets, SymbolSets))
    requires p.left in fo
    ensures fo.Keys <= r.1.Keys
  {
    ScanFollowAsWritten(fi, nts, fo, p.right, |p.right|, Copy(fo[p.left]))
  }

  /** One pass of the `for` loop as written: the FIRST sets and the FOLLOW
      sets after the productions, in order. */
  function FollowPassAsWritten(fi: SymbolSets, nts: seq<Symbol>, fo: SymbolSets, prods: seq<Production>)
    : (r: (SymbolSets, SymbolSets))
    requires LeftsAreKeys(fo, prods)
    ensures fo.Keys <= r.1.Keys
  {
    if |prods| == 0 then (fi, fo)
    else
      var last := |prods| - 1;
      LeftsAreKeysPrefix(fo, prods, last);
      var (fi', fo') := FollowPassAsWritten(fi, nts, fo, prods[..last]);
      FollowStepAsWritten(fi', nts, fo', prods[last])
  }

  // ---------------------------------------------------------------------------
  // When FIRST is left alone, the two sweeps agree

  /** The sweep as written only adds to the FIRST sets. */
  lemma {:induction false} ScanFirstGrowsAsWritten(fi: SymbolSets, nts: seq<Symbol>, fo: SymbolSets, rhs: seq<Symbol>,
                                                   i: nat, tr: Trailer)
    requires i <= |rhs| && Bound(fi, tr)
    ensures Grows(fi, ScanFollowAsWritten(fi, nts, fo, rhs, i, tr).0)
    decreases i
  {
    if i > 0 {
      var sim := rhs[i - 1];
      if Tracked(nts, fo.Keys, sim) {
        var prior := if sim in fo then fo[sim] else {};
        var fo' := fo[sim := prior + Current(fi, tr)];
        if sim in fi && Epsilon in fi[sim] {
          var (fi', tr') := ExtendAsWritten(fi, tr, fi[sim] - {Epsilon});
          ScanFirstGrowsAsWritten(fi', nts, fo', rhs, i - 1, tr');
          GrowsTransitive(fi, fi', ScanFollowAsWritten(fi', nts, fo', rhs, i - 1, tr').0);
        } else {
          ScanFirstGrowsAsWritten(fi, nts, fo', rhs, i - 1, ResetAsWritten(fi, sim));
        }
      } else {
        ScanFirstGrowsAsWritten(fi, nts, fo, rhs, i - 1, ResetAsWritten(fi, sim));
      }
    }
  }

  /** A sweep as written that leaves every FIRST set as it was computes the
      FOLLOW sets of the copying sweep, started with the trailer's elements. */
  lemma {:induction false} ScanAgreesWhenFirstKept(fi: SymbolSets, nts: seq<Symbol>, fo: SymbolSets, rhs: seq<Symbol>,
                                                   i: nat, tr: Trailer)
    requires i <= |rhs| && Bound(fi, tr)
    requires ScanFollowAsWritten(fi, nts, fo, rhs, i, tr).0 == fi
    ensures ScanFollowAsWritten(fi, nts, fo, rhs, i, tr).1 == ScanFollow(fi, nts, fo, rhs, i, Current(fi, tr))
    decreases i
  {
    if i > 0 {
      var sim := rhs[i - 1];
      if Tracked(nts, fo.Keys, sim) {
        var prior := if sim in fo then fo[sim] else {};
        var fo' := fo[sim := prior + Current(fi, tr)];
        if sim in fi && Epsilon in fi[sim] {
          var (fi', tr') := ExtendAsWritten(fi, tr, fi[sim] - {Epsilon});
          ScanFirstGrowsAsWritten(fi', nts, fo', rhs, i - 1, tr');
          GrowsAntisymmetric(fi, fi');
          ScanAgreesWhenFirstKept(fi, nts, fo', rhs, i - 1, tr');
        } else {
          ScanAgreesWhenFirstKept(fi, nts, fo', rhs, i - 1, ResetAsWritten(fi, sim));
        }
      } else {
        ScanAgreesWhenFirstKept(fi, nts, fo, rhs, i - 1, ResetAsWritten(fi, sim));
      }
    }
  }

  /** A pass as written only adds to the FIRST sets. */
  lemma {:induction false} PassFirstGrowsAsWritten(fi: SymbolSets, nts: seq<Symbol>, fo: SymbolSets,
                                                   prods: seq<Production>)
    requires LeftsAreKeys(fo, prods)
    ensures Grows(fi, FollowPassAsWritten(fi, nts, fo, prods).0)
    decreases |prods|
  {
    if |prods| > 0 {
      var last := |prods| - 1;
      LeftsAreKeysPrefix(fo, prods, last);
      var (fi', fo') := FollowPassAsWritten(fi, nts, fo, prods[..last]);
      PassFirstGrowsAsWritten(fi, nts, fo, prods[..last]);
      var p := prods[last];
      ScanFirstGrowsAsWritten(fi', nts, fo', p.right, |p.right|, Copy(fo'[p.left]));
      GrowsTransitive(fi, fi', FollowPassAsWritten(fi, nts, fo, prods).0);
    }
  }

  /** A pass as written that leaves every FIRST set as it was computes the
      FOLLOW sets of `FollowPass`: the aliasing matters only when some
      `trailer |=` grows a shared FIRST set. */
  lemma {:induction false} PassAgreesWhenFirstKept(fi: SymbolSets, nts: seq<Symbol>, fo: SymbolSets,
                                                   prods: seq<Production>)
    requires LeftsAreKeys(fo, prods)
    requires FollowPassAsWritten(fi, nts, fo, prods).0 == fi
    ensures FollowPassAsWritten(fi, nts, fo, prods).1 == FollowPass(fi, nts, fo, prods)
    decreases |prods|
  {
    if |prods| > 0 {
      var last := |prods| - 1;
      LeftsAreKeysPrefix(fo, prods, last);
      var (fi', fo') := FollowPassAsWritten(fi, nts, fo, prods[..last]);
      PassFirstGrowsAsWritten(fi, nts, fo, prods[..last]);
      var p := prods[last];
      ScanFirstGrowsAsWritten(fi', nts, fo', p.right, |p.right|, Copy(fo'[p.left]));
      GrowsAntisymmetric(fi, fi');
      PassAgreesWhenFirstKept(fi, nts, fo, prods[..last]);
      ScanAgreesWhenFirstKept(fi, nts, fo', p.right, |p.right|, Copy(fo'[p.left]));
    }
  }

  /** A pass as written is its steps one after another: given the state
      after each production, the pass ends in the last one. */
  lemma {:induction false} PassOfSteps(nts: seq<Symbol>, prods: seq<Production>, states: seq<(SymbolSets, SymbolSets)>,
                                       i: nat)
    requires |states| == |prods| + 1 && i <= |prods|
    requires LeftsAreKeys(states[0].1, prods)
    requires forall k | 0 <= k < |prods| ::
      prods[k].left in states[k].1 && FollowStepAsWritten(states[k].0, nts, states[k].1, prods[k]) == states[k + 1]
    ensures LeftsAreKeys(states[0].1, prods[..i])
    ensures FollowPassAsWritten(states[0].0, nts, states[0].1, prods[..i]) == states[i]
  {
    LeftsAreKeysPrefix(states[0].1, prods, i);
    if i == 0 {
      assert prods[..0] == [];
    } else {
      PassOfSteps(nts, prods, states, i - 1);
      var pre := prods[..i];
      assert pre[..i - 1] == prods[..i - 1] && pre[i - 1] == prods[i - 1];
    }
  }

  /** A production whose right side is one symbol that is not tracked changes
      nothing. */
  lemma UntrackedSingle(fi: SymbolSets, nts: seq<Symbol>, fo: SymbolSets, p: Production)
    requires p.left in fo && |p.right| == 1 && !Tracked(nts, fo.Keys, p.right[0])
    ensures FollowStepAsWritten(fi, nts, fo, p) == (fi, fo)
  {
  }

  // ---------------------------------------------------------------------------
  // A grammar on which they differ

  /** `S -> B C`, `B -> b | vazio`, `C -> c`, augmented with `S' -> S $`. */
  const Example: Grammar := Grammar(
    ["b", "c"], ["S'", "S", "B", "C"], "S'", "$",
    [Production("S'", ["S", "$"]), Production("S", ["B", "C"]), Production("B", ["b"]),
     Production("B", []), Production("C", ["c"])],
    map["S'" := [Alternative(0, ["S", "$"])], "S" := [Alternative(1, ["B", "C"])],
        "B" := [Alternative(2, ["b"]), Alternative(3, [])], "C" := [Alternative(4, ["c"])]])

  /** The FIRST sets of `Example`. */
  const ExampleFirst: SymbolSets :=
    map["S'" := {"b", "c"}, "S" := {"b", "c"}, "B" := {"b", Epsilon}, "C" := {"c"}, "b" := {"b"}, "c" := {"c"}]

  /** The FOLLOW sets of `Example`: the least solution of the FOLLOW rules. */
  const ExampleFollow: SymbolSets := map["S'" := {"$"}, "S" := {"$"}, "B" := {"c"}, "C" := {"$"}]

  lemma ExampleLeftSymbols()
    ensures LeftSymbols(Example.productions) == {"S'", "S", "B", "C"}
  {
    var ps := Example.productions;
    assert ps[0].left == "S'" && ps[1].left == "S" && ps[2].left == "B" && ps[4].left == "C";
  }

  /** The FIRST rules of the five productions of `Example` hold in
      `ExampleFirst`. */
  lemma ExampleFirstRules()
    ensures forall i | 0 <= i < |Example.productions| ::
      Example.productions[i].left in ExampleFirst
      && FirstRule(ExampleFirst, Example.productions[i].left, Example.productions[i].right)
  {
    var f := ExampleFirst;
    assert FirstRule(f, "S'", ["S", "$"]) by {
      var rhs := ["S", "$"];
      assert rhs[0] == "S" && !Nullable(f, "S");
      forall j | 0 < j <= 2 ensures !NullablePrefix(f, rhs, j) {
        assert !Nullable(f, rhs[0]);
      }
    }
    assert FirstRule(f, "S", ["B", "C"]) by {
      var rhs := ["B", "C"];
      assert rhs[0] == "B" && rhs[1] == "C" && !Nullable(f, "C");
      assert !NullablePrefix(f, rhs, 2) by {
        assert !Nullable(f, rhs[1]);
      }
    }
    assert FirstRule(f, "B", ["b"]) by {
      var rhs := ["b"];
      assert rhs[0] == "b" && !Nullable(f, "b");
      assert !NullablePrefix(f, rhs, 1) by {
        assert !Nullable(f, rhs[0]);
      }
    }
    assert FirstRule(f, "C", ["c"]) by {
      var rhs := ["c"];
      assert rhs[0] == "c" && !Nullable(f, "c");
      assert !NullablePrefix(f, rhs, 1) by {
        assert !Nullable(f, rhs[0]);
      }
    }
    assert FirstRule(f, "B", []);
  }

  /** `ExampleFirst` is the least map that satisfies the FIRST rules of
      `Example`, so it is what `ComputeFirst` returns. */
  lemma ExampleFirstIsLeast()
    ensures FirstRulesHold(Example, ExampleFirst)
    ensures forall s | FirstRulesHold(Example, s) :: Grows(ExampleFirst, s)
  {
    ExampleFirstKeys();
    ExampleFirstRules();
    forall s | FirstRulesHold(Example, s) ensures Grows(ExampleFirst, s) {
      ExampleFirstBelow(s);
    }
  }

  /** The FIRST rule passes on the first symbol's FIRST set. */
  lemma RuleFirstSymbol(s: SymbolSets, a: Symbol, rhs: seq<Symbol>)
    requires a in s && FirstRule(s, a, rhs) && |rhs| > 0 && rhs[0] in s
    ensures s[rhs[0]] - {Epsilon} <= s[a]
  {
    assert NullablePrefix(s, rhs, 0);
  }

  /** The FIRST rule passes on the second symbol's FIRST set after a
      nullable first symbol. */
  lemma RuleSecondSymbol(s: SymbolSets, a: Symbol, rhs: seq<Symbol>)
    requires a in s && FirstRule(s, a, rhs) && |rhs| > 1 && Nullable(s, rhs[0]) && rhs[1] in s
    ensures s[rhs[1]] - {Epsilon} <= s[a]
  {
    assert NullablePrefix(s, rhs, 1);
  }

  /** Every map that satisfies the FIRST rules of `Example` contains
      `ExampleFirst`. */
  lemma ExampleFirstBelow(s: SymbolSets)
    requires FirstRulesHold(Example, s)
    ensures Grows(ExampleFirst, s)
  {
    ExampleFirstStart(s);
    ExampleFirstRulesOf(s);
    FirstBelowFromRules(s);
  }

  /** The entries of a map that satisfies the FIRST rules of `Example`, and
      the initial sets of its terminals. */
  lemma ExampleFirstStart(s: SymbolSets)
    requires FirstRulesHold(Example, s)
    ensures s.Keys == ExampleFirst.Keys
    ensures "b" in s["b"] && "c" in s["c"]
  {
    ExampleFirstKeys();
    assert InitialFirst(Example)["b"] <= s["b"] && InitialFirst(Example)["c"] <= s["c"];
    ExampleInitialFirst();
  }

  lemma ExampleFirstKeys()
    ensures FirstKeys(Example) == ExampleFirst.Keys
  {
    ExampleLeftSymbols();
  }

  /** The initial FIRST sets of the terminals of `Example`. */
  lemma ExampleInitialFirst()
    ensures "b" in InitialFirst(Example) && InitialFirst(Example)["b"] == {"b"}
    ensures "c" in InitialFirst(Example) && InitialFirst(Example)["c"] == {"c"}
  {
    ExampleFirstKeys();
  }

  /** The five FIRST rules of `Example`, one per production. */
  lemma ExampleFirstRulesOf(s: SymbolSets)
    requires FirstRulesHold(Example, s)
    ensures "S'" in s && "S" in s && "B" in s && "C" in s
    ensures FirstRule(s, "S'", ["S", "$"]) && FirstRule(s, "S", ["B", "C"])
    ensures FirstRule(s, "B", ["b"]) && FirstRule(s, "B", []) && FirstRule(s, "C", ["c"])
  {
    var ps := Example.productions;
    assert FirstRule(s, ps[0].left, ps[0].right) && FirstRule(s, ps[1].left, ps[1].right);
    assert FirstRule(s, ps[2].left, ps[2].right) && FirstRule(s, ps[3].left, ps[3].right);
    assert FirstRule(s, ps[4].left, ps[4].right);
  }

  /** The FIRST sets forced by the five rules of `Example` and the initial
      sets of its terminals. */
  lemma FirstBelowFromRules(s: SymbolSets)
    requires s.Keys == ExampleFirst.Keys && "S'" in s && "S" in s && "B" in s && "C" in s
    requires "b" in s["b"] && "c" in s["c"]
    requires FirstRule(s, "S'", ["S", "$"]) && FirstRule(s, "S", ["B", "C"])
    requires FirstRule(s, "B", ["b"]) && FirstRule(s, "B", []) && FirstRule(s, "C", ["c"])
    ensures Grows(ExampleFirst, s)
  {
    RuleFirstSymbol(s, "B", ["b"]);
    RuleFirstSymbol(s, "C", ["c"]);
    assert NullablePrefix(s, [], 0);
    assert Nullable(s, ["B", "C"][0]);
    RuleFirstSymbol(s, "S", ["B", "C"]);
    RuleSecondSymbol(s, "S", ["B", "C"]);
    RuleFirstSymbol(s, "S'", ["S", "$"]);
    assert "b" in s["B"] && "c" in s["C"];
    assert {"b", "c"} <= s["S"];
    forall k | k in ExampleFirst ensures ExampleFirst[k] <= s[k] {
      assert k in {"S'", "S", "B", "C", "b", "c"};
    }
  }

  /** The FOLLOW rules of `a -> x y`, spelt out. */
  lemma FollowRuleOfTwo(fi: SymbolSets, nts: seq<Symbol>, fo: SymbolSets, a: Symbol, x: Symbol, y: Symbol)
    requires a in fo
    ensures FollowRule(fi, nts, fo, a, [x, y]) <==>
      && (Tracked(nts, fo.Keys, x) ==>
            && x in fo && Contribution(fi, nts, fo.Keys, y) <= fo[x]
            && (Tracked(nts, fo.Keys, y) && Nullable(fi, y) ==> fo[a] <= fo[x]))
      && (Tracked(nts, fo.Keys, y) ==> y in fo && fo[a] <= fo[y])
  {
    var rhs := [x, y];
    assert rhs[0] == x && rhs[1] == y;
    assert NullableTrackedBetween(fi, nts, fo.Keys, rhs, 1, 1);
    assert NullableTrackedFrom(fi, nts, fo.Keys, rhs, 2);
    assert NullableTrackedFrom(fi, nts, fo.Keys, rhs, 1) <==> Tracked(nts, fo.Keys, y) && Nullable(fi, y);
  }

  /** A right side of one untracked symbol puts nothing into FOLLOW. */
  lemma FollowRuleUntracked(fi: SymbolSets, nts: seq<Symbol>, fo: SymbolSets, a: Symbol, x: Symbol)
    requires a in fo && !Tracked(nts, fo.Keys, x)
    ensures FollowRule(fi, nts, fo, a, [x])
  {
    assert [x][0] == x;
  }

  lemma ExampleFollowKeys()
    ensures FollowKeys(Example) == ExampleFollow.Keys
    ensures InitialFollow(Example) == map["S'" := {"$"}, "S" := {}, "B" := {}, "C" := {}]
  {
    ExampleLeftSymbols();
  }

  /** The FOLLOW rules of the five productions of `Example` hold in
      `ExampleFollow`. */
  lemma ExampleFollowRules()
    ensures forall i | 0 <= i < |Example.productions| ::
      Example.productions[i].left in ExampleFollow
      && FollowRule(ExampleFirst, Example.nonterminals, ExampleFollow, Example.productions[i].left,
                    Example.productions[i].right)
  {
    var nts, fo := Example.nonterminals, ExampleFollow;
    assert !Tracked(nts, fo.Keys, "$") && !Tracked(nts, fo.Keys, "b") && !Tracked(nts, fo.Keys, "c");
    assert Tracked(nts, fo.Keys, "S") && Tracked(nts, fo.Keys, "C") && !Nullable(ExampleFirst, "C");
    assert Contribution(ExampleFirst, nts, fo.Keys, "$") == {"$"};
    assert Contribution(ExampleFirst, nts, fo.Keys, "C") == {"c"};
    FollowRuleOfTwo(ExampleFirst, nts, fo, "S'", "S", "$");
    FollowRuleOfTwo(ExampleFirst, nts, fo, "S", "B", "C");
    FollowRuleUntracked(ExampleFirst, nts, fo, "B", "b");
    FollowRuleUntracked(ExampleFirst, nts, fo, "C", "c");
    assert FollowRule(ExampleFirst, nts, fo, "B", []);
  }

  /** `ExampleFollow` is the least map that satisfies the FOLLOW rules of
      `Example` over its FIRST sets, so it is what `ComputeFollow` returns:
      FOLLOW(B) is `{c}`. */
  lemma ExampleFollowIsLeast()
    ensures FollowRulesHold(Example, ExampleFirst, ExampleFollow)
    ensures forall s | FollowRulesHold(Example, ExampleFirst, s) :: Grows(ExampleFollow, s)
  {
    ExampleFollowKeys();
    ExampleFollowRules();
    forall s | FollowRulesHold(Example, ExampleFirst, s) ensures Grows(ExampleFollow, s) {
      ExampleFollowBelow(s);
    }
  }

  /** The FOLLOW rules of `Example` in a map that satisfies them. */
  lemma ExampleFollowRulesOf(s: SymbolSets)
    requires FollowRulesHold(Example, ExampleFirst, s)
    ensures "S'" in s && "S" in s
    ensures FollowRule(ExampleFirst, Example.nonterminals, s, "S'", ["S", "$"])
    ensures FollowRule(ExampleFirst, Example.nonterminals, s, "S", ["B", "C"])
  {
    var ps := Example.productions;
    assert ps[0].left in s && FollowRule(ExampleFirst, Example.nonterminals, s, ps[0].left, ps[0].right);
    assert ps[1].left in s && FollowRule(ExampleFirst, Example.nonterminals, s, ps[1].left, ps[1].right);
  }

  /** Every map that satisfies the FOLLOW rules of `Example` contains
      `ExampleFollow`. */
  lemma ExampleFollowBelow(s: SymbolSets)
    requires FollowRulesHold(Example, ExampleFirst, s)
    ensures Grows(ExampleFollow, s)
  {
    var nts := Example.nonterminals;
    ExampleFollowKeys();
    assert s.Keys == ExampleFollow.Keys && "$" in s["S'"];
    ExampleFollowRulesOf(s);
    assert Tracked(nts, s.Keys, "S") && Tracked(nts, s.Keys, "B") && Tracked(nts, s.Keys, "C");
    assert Contribution(ExampleFirst, nts, s.Keys, "$") == {"$"};
    assert Contribution(ExampleFirst, nts, s.Keys, "C") == {"c"};
    FollowRuleOfTwo(ExampleFirst, nts, s, "S'", "S", "$");
    FollowRuleOfTwo(ExampleFirst, nts, s, "S", "B", "C");
    FollowBelowFromRules(s);
  }

  /** The FOLLOW sets forced by the rules of `Example`. */
  lemma FollowBelowFromRules(s: SymbolSets)
    requires s.Keys == ExampleFollow.Keys
    requires "$" in s["S'"] && {"$"} <= s["S"] && {"c"} <= s["B"] && s["S"] <= s["C"]
    ensures Grows(ExampleFollow, s)
  {
    forall k | k in ExampleFollow ensures ExampleFollow[k] <= s[k] {
      assert k in {"S'", "S", "B", "C"};
    }
  }

  /** One symbol of the sweep as written when the symbol is not tracked. */
  lemma ScanUntracked(fi: SymbolSets, nts: seq<Symbol>, fo: SymbolSets, rhs: seq<Symbol>, i: nat, tr: Trailer)
    requires 0 < i <= |rhs| && Bound(fi, tr) && !Tracked(nts, fo.Keys, rhs[i - 1])
    ensures ScanFollowAsWritten(fi, nts, fo, rhs, i, tr)
         == ScanFollowAsWritten(fi, nts, fo, rhs, i - 1, ResetAsWritten(fi, rhs[i - 1]))
  {
  }

  /** One symbol of the sweep as written when the symbol is tracked and not
      nullable: its FOLLOW set takes the trailer, which is then reset. */
  lemma ScanTrackedReset(fi: SymbolSets, nts: seq<Symbol>, fo: SymbolSets, rhs: seq<Symbol>, i: nat, tr: Trailer)
    requires 0 < i <= |rhs| && Bound(fi, tr) && Tracked(nts, fo.Keys, rhs[i - 1]) && rhs[i - 1] in fo
    requires !(rhs[i - 1] in fi && Epsilon in fi[rhs[i - 1]])
    ensures ScanFollowAsWritten(fi, nts, fo, rhs, i, tr)
         == ScanFollowAsWritten(fi, nts, fo[rhs[i - 1] := fo[rhs[i - 1]] + Current(fi, tr)], rhs, i - 1,
                                ResetAsWritten(fi, rhs[i - 1]))
  {
  }

  /** One symbol of the sweep as written when the symbol is tracked and
      nullable: its FOLLOW set takes the trailer, which is then extended. */
  lemma ScanTrackedExtend(fi: SymbolSets, nts: seq<Symbol>, fo: SymbolSets, rhs: seq<Symbol>, i: nat, tr: Trailer)
    requires 0 < i <= |rhs| && Bound(fi, tr) && Tracked(nts, fo.Keys, rhs[i - 1]) && rhs[i - 1] in fo
    requires rhs[i - 1] in fi && Epsilon in fi[rhs[i - 1]]
    ensures ScanFollowAsWritten(fi, nts, fo, rhs, i, tr)
         == ScanFollowAsWritten(ExtendAsWritten(fi, tr, fi[rhs[i - 1]] - {Epsilon}).0, nts,
                                fo[rhs[i - 1] := fo[rhs[i - 1]] + Current(fi, tr)], rhs, i - 1,
                                ExtendAsWritten(fi, tr, fi[rhs[i - 1]] - {Epsilon}).1)
  {
  }

  /** FIRST(C) after the first pass as written. */
  const AliasedFirst: SymbolSets := ExampleFirst["C" := {"b", "c"}]

  /** FOLLOW as the source leaves it. */
  const AliasedFollow: SymbolSets := map["S'" := {"$"}, "S" := {"$"}, "B" := {"b", "c"}, "C" := {"$"}]

  /** The FOLLOW sets before the first pass. */
  const StartFollow: SymbolSets := map["S'" := {"$"}, "S" := {}, "B" := {}, "C" := {}]

  /** The FOLLOW sets after the first production of the first pass. */
  const AfterStart: SymbolSets := map["S'" := {"$"}, "S" := {"$"}, "B" := {}, "C" := {}]

  /** Production `S' -> S $` as written: FOLLOW(S) receives `$`, and nothing
      else changes. */
  lemma PassStart(fi: SymbolSets, fo: SymbolSets)
    requires fo.Keys == ExampleFollow.Keys && fo["S'"] == {"$"}
    requires "$" !in fi && "S" in fi && Epsilon !in fi["S"]
    ensures FollowStepAsWritten(fi, Example.nonterminals, fo, Example.productions[0])
         == (fi, fo["S" := fo["S"] + {"$"}])
  {
    var nts := Example.nonterminals;
    var rhs := ["S", "$"];
    assert Example.productions[0] == Production("S'", rhs);
    assert !Tracked(nts, fo.Keys, "$") && Tracked(nts, fo.Keys, "S");
    ScanUntracked(fi, nts, fo, rhs, 2, Copy({"$"}));
    ScanTrackedReset(fi, nts, fo, rhs, 1, Copy({"$"}));
  }

  /** Production `S -> B C` as written with FIRST(B) = {b, epsilon}: FOLLOW(C)
      takes FOLLOW(S), the trailer then shares FIRST(C), FOLLOW(B) takes it,
      and passing the nullable `B` adds `b` to FIRST(C) itself. */
  lemma PassMiddle(fi: SymbolSets, fo: SymbolSets)
    requires fo.Keys == ExampleFollow.Keys && "C" in fi && Epsilon !in fi["C"]
    requires "B" in fi && fi["B"] == {"b", Epsilon}
    ensures FollowStepAsWritten(fi, Example.nonterminals, fo, Example.productions[1])
         == (fi["C" := fi["C"] + {"b"}],
             fo["C" := fo["C"] + fo["S"]]["B" := fo["B"] + fi["C"]])
  {
    var nts := Example.nonterminals;
    var rhs := ["B", "C"];
    assert Example.productions[1] == Production("S", rhs);
    assert Tracked(nts, fo.Keys, "B") && Tracked(nts, fo.Keys, "C");
    ScanTrackedReset(fi, nts, fo, rhs, 2, Copy(fo["S"]));
    var fo1 := fo["C" := fo["C"] + fo["S"]];
    assert fo1.Keys == fo.Keys;
    ScanTrackedExtend(fi, nts, fo1, rhs, 1, Alias("C"));
    assert fi["B"] - {Epsilon} == {"b"};
  }

  /** Writing back the value a key already has leaves a map as it was. */
  lemma UpdateSame(m: SymbolSets, k: Symbol, v: set<Symbol>)
    requires k in m && m[k] == v
    ensures m[k := v] == m
  {
  }

  /** A map over the four non-terminals of `Example` is determined by its
      four entries. */
  lemma FollowMapOf(m: SymbolSets, start: set<Symbol>, s: set<Symbol>, b: set<Symbol>, c: set<Symbol>)
    requires m.Keys == {"S'", "S", "B", "C"}
    requires m["S'"] == start && m["S"] == s && m["B"] == b && m["C"] == c
    ensures m == map["S'" := start, "S" := s, "B" := b, "C" := c]
  {
  }

  /** The first pass as written on `Example`: it reaches the FOLLOW sets of
      the copying sweep, but grows FIRST(C) to {b, c}. */
  lemma FirstPassSteps()
    ensures FollowStepAsWritten(ExampleFirst, Example.nonterminals, StartFollow, Example.productions[0])
         == (ExampleFirst, AfterStart)
    ensures FollowStepAsWritten(ExampleFirst, Example.nonterminals, AfterStart, Example.productions[1])
         == (AliasedFirst, ExampleFollow)
  {
    PassStart(ExampleFirst, StartFollow);
    FollowMapOf(StartFollow["S" := StartFollow["S"] + {"$"}], {"$"}, {"$"}, {}, {});
    PassMiddle(ExampleFirst, AfterStart);
    assert ExampleFirst["C"] + {"b"} == {"b", "c"};
    var fo1 := AfterStart["C" := AfterStart["C"] + AfterStart["S"]];
    FollowMapOf(fo1["B" := fo1["B"] + ExampleFirst["C"]], {"$"}, {"$"}, {"c"}, {"$"});
  }

  /** The second pass as written: FOLLOW(B) takes the grown FIRST(C). */
  lemma SecondPassSteps()
    ensures FollowStepAsWritten(AliasedFirst, Example.nonterminals, ExampleFollow, Example.productions[0])
         == (AliasedFirst, ExampleFollow)
    ensures FollowStepAsWritten(AliasedFirst, Example.nonterminals, ExampleFollow, Example.productions[1])
         == (AliasedFirst, AliasedFollow)
  {
    PassStart(AliasedFirst, ExampleFollow);
    FollowMapOf(ExampleFollow["S" := ExampleFollow["S"] + {"$"}], {"$"}, {"$"}, {"c"}, {"$"});
    PassMiddle(AliasedFirst, ExampleFollow);
    assert AliasedFirst["C"] + {"b"} == AliasedFirst["C"];
    UpdateSame(AliasedFirst, "C", AliasedFirst["C"] + {"b"});
    var fo1 := ExampleFollow["C" := ExampleFollow["C"] + ExampleFollow["S"]];
    FollowMapOf(fo1["B" := fo1["B"] + AliasedFirst["C"]], {"$"}, {"$"}, {"b", "c"}, {"$"});
  }

  /** The third pass as written changes nothing. */
  lemma ThirdPassSteps()
    ensures FollowStepAsWritten(AliasedFirst, Example.nonterminals, AliasedFollow, Example.productions[0])
         == (AliasedFirst, AliasedFollow)
    ensures FollowStepAsWritten(AliasedFirst, Example.nonterminals, AliasedFollow, Example.productions[1])
         == (AliasedFirst, AliasedFollow)
  {
    PassStart(AliasedFirst, AliasedFollow);
    FollowMapOf(AliasedFollow["S" := AliasedFollow["S"] + {"$"}], {"$"}, {"$"}, {"b", "c"}, {"$"});
    PassMiddle(AliasedFirst, AliasedFollow);
    assert AliasedFirst["C"] + {"b"} == AliasedFirst["C"];
    UpdateSame(AliasedFirst, "C", AliasedFirst["C"] + {"b"});
    var fo1 := AliasedFollow["C" := AliasedFollow["C"] + AliasedFollow["S"]];
    FollowMapOf(fo1["B" := fo1["B"] + AliasedFirst["C"]], {"$"}, {"$"}, {"b", "c"}, {"$"});
  }

  /** Productions `B -> b`, `B -> vazio` and `C -> c` change nothing. */
  lemma QuietProductions(fi: SymbolSets, fo: SymbolSets)
    requires fo.Keys == ExampleFollow.Keys
    ensures FollowStepAsWritten(fi, Example.nonterminals, fo, Example.productions[2]) == (fi, fo)
    ensures FollowStepAsWritten(fi, Example.nonterminals, fo, Example.productions[3]) == (fi, fo)
    ensures FollowStepAsWritten(fi, Example.nonterminals, fo, Example.productions[4]) == (fi, fo)
  {
    var nts := Example.nonterminals;
    assert Example.productions[2] == Production("B", ["b"]) && Example.productions[3] == Production("B", []);
    assert Example.productions[4] == Production("C", ["c"]);
    assert !Tracked(nts, fo.Keys, "b") && !Tracked(nts, fo.Keys, "c");
    UntrackedSingle(fi, nts, fo, Example.productions[2]);
    UntrackedSingle(fi, nts, fo, Example.productions[4]);
  }

  /** Every left side of `Example` is a key of a map over its non-terminals. */
  lemma ExampleLeftsAreKeys(fo: SymbolSets)
    requires fo.Keys == ExampleFollow.Keys
    ensures LeftsAreKeys(fo, Example.productions)
  {
    var ps := Example.productions;
    ExampleLeftSymbols();
    forall i | 0 <= i < |ps| ensures ps[i].left in fo {
      assert ps[i].left in LeftSymbols(ps);
    }
  }

  /** `PassOfSteps` for a grammar of five productions, one step at a time. */
  lemma PassOfFive(nts: seq<Symbol>, prods: seq<Production>, states: seq<(SymbolSets, SymbolSets)>)
    requires |prods| == 5 && |states| == 6
    requires LeftsAreKeys(states[0].1, prods)
    requires LeftsAreKeys(states[1].1, prods) && LeftsAreKeys(states[2].1, prods)
    requires LeftsAreKeys(states[3].1, prods) && LeftsAreKeys(states[4].1, prods)
    requires FollowStepAsWritten(states[0].0, nts, states[0].1, prods[0]) == states[1]
    requires FollowStepAsWritten(states[1].0, nts, states[1].1, prods[1]) == states[2]
    requires FollowStepAsWritten(states[2].0, nts, states[2].1, prods[2]) == states[3]
    requires FollowStepAsWritten(states[3].0, nts, states[3].1, prods[3]) == states[4]
    requires FollowStepAsWritten(states[4].0, nts, states[4].1, prods[4]) == states[5]
    ensures FollowPassAsWritten(states[0].0, nts, states[0].1, prods) == states[5]
  {
    forall k | 0 <= k < |prods|
      ensures prods[k].left in states[k].1
      ensures FollowStepAsWritten(states[k].0, nts, states[k].1, prods[k]) == states[k + 1]
    {
      assert LeftsAreKeys(states[k].1, prods);
    }
    PassOfSteps(nts, prods, states, 5);
    assert prods[..5] == prods;
  }

  /** A pass as written over `Example` is determined by its first two
      productions, since the other three change nothing. */
  lemma ExamplePass(fi0: SymbolSets, fo0: SymbolSets, fi1: SymbolSets, fo1: SymbolSets,
                    fi2: SymbolSets, fo2: SymbolSets)
    requires fo0.Keys == ExampleFollow.Keys && fo1.Keys == ExampleFollow.Keys && fo2.Keys == ExampleFollow.Keys
    requires FollowStepAsWritten(fi0, Example.nonterminals, fo0, Example.productions[0]) == (fi1, fo1)
    requires FollowStepAsWritten(fi1, Example.nonterminals, fo1, Example.productions[1]) == (fi2, fo2)
    ensures LeftsAreKeys(fo0, Example.productions)
    ensures FollowPassAsWritten(fi0, Example.nonterminals, fo0, Example.productions) == (fi2, fo2)
  {
    var ps := Example.productions;
    ExampleLeftsAreKeys(fo0);
    ExampleLeftsAreKeys(fo1);
    ExampleLeftsAreKeys(fo2);
    QuietProductions(fi2, fo2);
    PassOfFive(Example.nonterminals, ps, [(fi0, fo0), (fi1, fo1), (fi2, fo2), (fi2, fo2), (fi2, fo2), (fi2, fo2)]);
  }

  /** The source on `Example`, starting from its FIRST sets: the first pass
      puts `b` into FIRST(C) through the alias, the second passes it on to
      FOLLOW(B), and the third changes no FOLLOW set, so `while mudou` stops
      there with FOLLOW(B) = {b, c}, where the least map satisfying the FOLLOW
      rules (`ExampleFollowIsLeast`) has {c}. */
  lemma AliasedFollowExample()
    ensures InitialFollow(Example) == StartFollow
    ensures LeftsAreKeys(StartFollow, Example.productions)
    ensures FollowPassAsWritten(ExampleFirst, Example.nonterminals, StartFollow, Example.productions)
         == (AliasedFirst, ExampleFollow)
    ensures LeftsAreKeys(ExampleFollow, Example.productions)
    ensures FollowPassAsWritten(AliasedFirst, Example.nonterminals, ExampleFollow, Example.productions)
         == (AliasedFirst, AliasedFollow)
    ensures LeftsAreKeys(AliasedFollow, Example.productions)
    ensures FollowPassAsWritten(AliasedFirst, Example.nonterminals, AliasedFollow, Example.productions)
         == (AliasedFirst, AliasedFollow)
    ensures AliasedFollow["B"] == {"b", "c"} && ExampleFollow["B"] == {"c"}
  {
    ExampleFollowKeys();
    FirstPassSteps();
    ExamplePass(ExampleFirst, StartFollow, ExampleFirst, AfterStart, AliasedFirst, ExampleFollow);
    SecondPassSteps();
    ExamplePass(AliasedFirst, ExampleFollow, AliasedFirst, ExampleFollow, AliasedFirst, AliasedFollow);
    ThirdPassSteps();
    ExamplePass(AliasedFirst, AliasedFollow, AliasedFirst, AliasedFollow, AliasedFirst, AliasedFollow);
  }
}
