/** The analyzer (`AnalisadorSLR`): an object whose fields hold the result of
    each phase (the grammar, FIRST, FOLLOW, the states and transitions of the
    LR(0) automaton, and the table). Each phase raises when a phase it depends
    on has not stored its result yet; Python's `not x` is true both for `None`
    and for an empty dictionary or list, and the model checks both. */
module SlrAnalyzer {
  import opened Results
  import opened GrammarModel
  import opened ProductionText
  import opened Augmentation
  import opened FirstSets
  import opened FollowSets
  import opened LR0Items
  import opened LR0Automaton
  import opened SlrTable

  /** Why a phase raises. */
  datatype AnalyzerError =
    | TooFewLines(count: nat)
    | NoNonterminals
    | BadProductionLine(lineError: LineError)
    | NoProductions
    | InvalidGrammar(issues: seq<Issue>)
    | GrammarMissing
    | FirstMissing
    | ItemsOutOfRange
    | TableFailed(tableError: TableError)

  // ---------------------------------------------------------------------------
  // The lines of the input

  /** A line that is neither blank nor a comment once stripped. */
  predicate Kept(line: string) {
    var s := Strip(line);
    s != [] && s[0] != '#'
  }

  /** The stripped lines that are kept, in order (line 89). */
  function ContentLines(lines: seq<string>): (r: seq<string>)
    ensures |r| <= |lines|
    decreases |lines|
  {
    if |lines| == 0 then []
    else
      var last := lines[|lines| - 1];
      ContentLines(lines[..|lines| - 1]) + if Kept(last) then [Strip(last)] else []
  }

  /** The kept lines are exactly the stripped non-blank, non-comment lines. */
  lemma {:induction false} ContentLinesSpec(lines: seq<string>)
    ensures forall l | l in ContentLines(lines) :: exists i | 0 <= i < |lines| :: Kept(lines[i]) && l == Strip(lines[i])
    ensures forall i | 0 <= i < |lines| && Kept(lines[i]) :: Strip(lines[i]) in ContentLines(lines)
    decreases |lines|
  {
    if |lines| > 0 {
      var init := lines[..|lines| - 1];
      ContentLinesSpec(init);
      forall l | l in ContentLines(lines)
        ensures exists i | 0 <= i < |lines| :: Kept(lines[i]) && l == Strip(lines[i])
      {
        if l in ContentLines(init) {
          var i :| 0 <= i < |init| && Kept(init[i]) && l == Strip(init[i]);
          assert lines[i] == init[i];
        } else {
          assert Kept(lines[|lines| - 1]) && l == Strip(lines[|lines| - 1]);
        }
      }
      forall i | 0 <= i < |lines| && Kept(lines[i]) ensures Strip(lines[i]) in ContentLines(lines) {
        if i < |init| {
          assert lines[i] == init[i];
        }
      }
    }
  }

  /** Splitting the lines anywhere splits the kept lines at the same place:
      the kept lines keep the order of the input. */
  lemma {:induction false} ContentLinesAppend(a: seq<string>, b: seq<string>)
    ensures ContentLines(a + b) == ContentLines(a) + ContentLines(b)
    decreases |b|
  {
    if |b| == 0 {
      assert a + b == a;
    } else {
      var ab, init, last := a + b, b[..|b| - 1], b[|b| - 1];
      var tail := if Kept(last) then [Strip(last)] else [];
      assert ab[..|ab| - 1] == a + init && ab[|ab| - 1] == last;
      ContentLinesAppend(a, init);
      calc {
        ContentLines(ab);
        ContentLines(a + init) + tail;
        ContentLines(a) + ContentLines(init) + tail;
        ContentLines(a) + (ContentLines(init) + tail);
      }
    }
  }

  /** A single line is kept, stripped, exactly when it is neither blank nor a
      comment; with `ContentLinesAppend` this fixes the kept lines of any input. */
  lemma ContentLinesOne(line: string)
    ensures ContentLines([line]) == if Kept(line) then [Strip(line)] else []
  {
    assert [line][..0] == [];
  }

  /** What each line makes, in order. */
  function LineResults(lines: seq<string>, terminals: seq<Symbol>): (rs: seq<Result<seq<Production>, LineError>>)
    ensures |rs| == |lines| && forall i | 0 <= i < |lines| :: rs[i] == LineResult(lines[i], terminals)
  {
    seq(|lines|, i requires 0 <= i < |lines| => LineResult(lines[i], terminals))
  }

  /** The values of the results concatenated in order, or the error of the
      first failing one: the loop of lines 124-159 over its lines. */
  function Collect<T, E>(rs: seq<Result<seq<T>, E>>): Result<seq<T>, E>
    decreases |rs|
  {
    if |rs| == 0 then Success([])
    else
      match Collect(rs[..|rs| - 1])
      case Failure(e) => Failure(e)
      case Success(ps) =>
        match rs[|rs| - 1]
        case Failure(e) => Failure(e)
        case Success(qs) => Success(ps + qs)
  }

  /** Collecting fails exactly when one result fails, and then with the error
      of the first such result. */
  lemma {:induction false} CollectFails<T, E>(rs: seq<Result<seq<T>, E>>)
    ensures Collect(rs).Success? <==> forall i | 0 <= i < |rs| :: rs[i].Success?
    ensures Collect(rs).Failure? ==> exists i | 0 <= i < |rs| ::
      rs[i] == Failure(Collect(rs).error) && forall j | 0 <= j < i :: rs[j].Success?
    decreases |rs|
  {
    if |rs| > 0 {
      var init := rs[..|rs| - 1];
      CollectFails(init);
      assert forall i | 0 <= i < |init| :: init[i] == rs[i];
    }
  }

  /** One more successful result extends the collection by its value. */
  lemma CollectStep<T, E>(rs: seq<Result<seq<T>, E>>, i: nat, ps: seq<T>)
    requires i < |rs| && Collect(rs[..i]) == Success(ps) && rs[i].Success?
    ensures Collect(rs[..i + 1]) == Success(ps + rs[i].value)
  {
    assert rs[..i + 1][..i] == rs[..i];
  }

  /** A failing result stops the collection with its error. */
  lemma {:induction false} CollectPrefixFails<T, E>(rs: seq<Result<seq<T>, E>>, k: nat)
    requires 0 < k <= |rs|
    requires Collect(rs[..k - 1]).Success? && rs[k - 1].Failure?
    ensures Collect(rs) == Failure(rs[k - 1].error)
    decreases |rs|
  {
    if k < |rs| {
      var init := rs[..|rs| - 1];
      assert init[..k - 1] == rs[..k - 1] && init[k - 1] == rs[k - 1];
      CollectPrefixFails(init, k);
    } else {
      assert rs[..|rs| - 1] == rs[..k - 1];
    }
  }

  /** The loop of lines 124-159: the productions of each line appended in
      order; the first line that raises stops it. */
  method ReadProductions(lines: seq<string>, terminals: seq<Symbol>) returns (r: Result<seq<Production>, LineError>)
    ensures r == Collect(LineResults(lines, terminals))
  {
    ghost var rs := LineResults(lines, terminals);
    var prods: seq<Production> := [];
    var i := 0;
    while i < |lines|
      invariant 0 <= i <= |lines|
      invariant Collect(rs[..i]) == Success(prods)
    {
      var res := SplitProductionLine(lines[i], terminals);
      assert res == rs[i];
      if res.Failure? {
        CollectPrefixFails(rs, i + 1);
        return res;
      }
      CollectStep(rs, i, prods);
      prods := prods + res.value;
      i := i + 1;
    }
    assert rs[..i] == rs;
    r := Success(prods);
  }

  /** The grammar of lines 162: the header values and the productions, with
      the left-side index built. */
  ghost predicate HasFields(g: Grammar, terminals: seq<Symbol>, nonterminals: seq<Symbol>, start: Symbol, eof: Symbol,
                            prods: seq<Production>)
  {
    && g.Valid() && g.terminals == terminals && g.nonterminals == nonterminals
    && g.start == start && g.eof == eof && g.productions == prods
  }

  /** Every item of every state indexes a production of `g`. */
  ghost predicate StatesInRange(g: Grammar, C: seq<ItemSet>) {
    forall k | 0 <= k < |C| :: TableItems(g, C[k])
  }

  /** The table phase on the stored values: it raises when some state holds
      an item outside the grammar, and otherwise builds the table as
      `BuildTable` does, raising with the error of a failing item. */
  method TableFor(g: Grammar, C: seq<ItemSet>, trans: Transitions, follow: SymbolSets)
    returns (r: Result<(Table, seq<Conflict>), AnalyzerError>, ghost logs: seq<seq<Write>>)
    ensures r.Success? <==>
      && StatesInRange(g, C)
      && |C| > 0 && |trans| > 0 && |follow| > 0
      && (forall k | 0 <= k < |C| :: Reducible(g, follow, C[k]))
    ensures !StatesInRange(g, C) ==> r == Failure(ItemsOutOfRange)
    ensures StatesInRange(g, C) && r.Failure? ==>
      && r.error.TableFailed?
      && (|C| == 0 || |trans| == 0 || |follow| == 0 ==> r.error.tableError == NotInitialized)
      && (|C| > 0 && |trans| > 0 && |follow| > 0 ==> StateError(g, follow, C, r.error.tableError))
    ensures r.Success? ==> TableUpTo(g, C, trans, follow, |C|, r.value.0, r.value.1, logs)
  {
    logs := [];
    if !(forall k | 0 <= k < |C| :: forall it | it in C[k] :: TableItem(g, it)) {
      return Failure(ItemsOutOfRange), logs;
    }
    var res, ls := BuildTable(g, C, trans, follow);
    if res.Failure? {
      return Failure(TableFailed(res.error)), logs;
    }
    r, logs := Success(res.value), ls;
  }

  class Analyzer {
    var grammar: Option<Grammar>
    var first: Option<SymbolSets>
    var follow: Option<SymbolSets>
    var states: Option<seq<ItemSet>>
    var transitions: Option<Transitions>
    var table: Option<Table>
    /** The order in which the last table's rows were written, and that
        table's conflicts. */
    ghost var logs: seq<seq<Write>>
    ghost var conflicts: seq<Conflict>

    /** A stored grammar has its index and at least one production (line 160
        refuses a grammar without), and the automaton was built from a grammar. */
    ghost predicate Valid()
      reads this
    {
      && (grammar.Some? ==> grammar.value.Valid() && |grammar.value.productions| > 0)
      && (states.Some? ==> grammar.Some?)
    }

    /** Lines 47-53: no phase has run. */
    constructor ()
      ensures Valid()
      ensures grammar == None && first == None && follow == None
      ensures states == None && transitions == None && table == None
    {
      grammar, first, follow := None, None, None;
      states, transitions, table := None, None, None;
      logs, conflicts := [], [];
    }

    /** `analisar_gramatica` (lines 88-170), with the header values (the first
        four kept lines) given already parsed. It raises with fewer than four
        kept lines, without non-terminals, on a bad production line, or
        without productions, leaving the grammar as it was; otherwise it
        stores the grammar and then raises exactly when validation reports
        something. */
    method AnalyzeGrammar(text: string, terminals: seq<Symbol>, nonterminals: seq<Symbol>, start: Symbol, eof: Symbol)
      returns (r: Result<Grammar, AnalyzerError>)
      requires Valid()
      modifies this
      ensures Valid()
      ensures first == old(first) && follow == old(follow) && table == old(table)
      ensures states == old(states) && transitions == old(transitions)
      ensures var lines := ContentLines(SplitOn(Strip(text), '\n'));
        && (|lines| < 4 ==> r == Failure(TooFewLines(|lines|)) && grammar == old(grammar))
        && (|lines| >= 4 && |nonterminals| == 0 ==> r == Failure(NoNonterminals) && grammar == old(grammar))
        && (|lines| >= 4 && |nonterminals| > 0 ==>
              match Collect(LineResults(lines[4..], terminals))
              case Failure(e) => r == Failure(BadProductionLine(e)) && grammar == old(grammar)
              case Success(prods) =>
                if prods == [] then r == Failure(NoProductions) && grammar == old(grammar)
                else
                  && grammar.Some? && HasFields(grammar.value, terminals, nonterminals, start, eof, prods)
                  && (r.Success? <==> WellFormed(grammar.value))
                  && (r.Success? ==> r.value == grammar.value)
                  && (r.Failure? ==> r.error == InvalidGrammar(ExpectedIssues(grammar.value))))
    {
      var lines := ContentLines(SplitOn(Strip(text), '\n'));
      if |lines| < 4 {
        return Failure(TooFewLines(|lines|));
      }
      if |nonterminals| == 0 {
        return Failure(NoNonterminals);
      }
      var read := ReadProductions(lines[4..], terminals);
      if read.Failure? {
        return Failure(BadProductionLine(read.error));
      }
      var prods := read.value;
      if prods == [] {
        return Failure(NoProductions);
      }
      var g := NewGrammar(terminals, nonterminals, start, eof, prods);
      grammar := Some(g);
      var issues := Validate(g);
      if issues != [] {
        return Failure(InvalidGrammar(issues));
      }
      return Success(g);
    }

    /** `aumentar_gramatica` (lines 172-184): raises without a grammar,
        otherwise stores the augmented grammar. */
    method AugmentGrammar() returns (r: Result<(), AnalyzerError>)
      requires Valid()
      modifies this
      ensures Valid()
      ensures first == old(first) && follow == old(follow) && table == old(table)
      ensures states == old(states) && transitions == old(transitions)
      ensures old(grammar).None? ==> r == Failure(GrammarMissing) && grammar == old(grammar)
      ensures old(grammar).Some? ==>
        && r.Success? && grammar.Some?
        && grammar.value.productions == [StartProduction(old(grammar).value)] + old(grammar).value.productions
        && grammar.value.nonterminals == [AugmentedStart] + old(grammar).value.nonterminals
        && grammar.value.terminals == old(grammar).value.terminals
        && grammar.value.start == AugmentedStart && grammar.value.eof == old(grammar).value.eof
    {
      if grammar.None? {
        return Failure(GrammarMissing);
      }
      var a := Augment(grammar.value);
      grammar := Some(a);
      r := Success(());
    }

    /** `calcular_conjuntos_first` (lines 186-223): raises without a grammar,
        otherwise stores the least map that satisfies the FIRST rules (the
        least map a pass leaves unchanged). */
    method ComputeFirstSets() returns (r: Result<SymbolSets, AnalyzerError>)
      requires Valid()
      modifies this
      ensures Valid()
      ensures grammar == old(grammar) && follow == old(follow) && table == old(table)
      ensures states == old(states) && transitions == old(transitions)
      ensures grammar.None? ==> r == Failure(GrammarMissing) && first == old(first)
      ensures grammar.Some? ==>
        && r.Success? && first == Some(r.value)
        && FirstSolution(grammar.value, r.value)
        && (forall s | FirstSolution(grammar.value, s) :: Grows(r.value, s))
        && FirstRulesHold(grammar.value, r.value)
        && forall s | FirstRulesHold(grammar.value, s) :: Grows(r.value, s)
    {
      if grammar.None? {
        return Failure(GrammarMissing);
      }
      var f := ComputeFirst(grammar.value);
      first := Some(f);
      r := Success(f);
    }

    /** `calcular_conjuntos_follow` (lines 225-270): raises without a grammar
        or without FIRST sets, otherwise stores the least map that satisfies
        the FOLLOW rules over the stored FIRST sets. */
    method ComputeFollowSets() returns (r: Result<SymbolSets, AnalyzerError>)
      requires Valid()
      modifies this
      ensures Valid()
      ensures grammar == old(grammar) && first == old(first) && table == old(table)
      ensures states == old(states) && transitions == old(transitions)
      ensures grammar.None? ==> r == Failure(GrammarMissing) && follow == old(follow)
      ensures grammar.Some? && (first.None? || |first.value| == 0) ==> r == Failure(FirstMissing) && follow == old(follow)
      ensures grammar.Some? && first.Some? && |first.value| > 0 ==>
        && r.Success? && follow == Some(r.value)
        && grammar.value.start in r.value && grammar.value.eof in r.value[grammar.value.start]
        && FollowSolution(grammar.value, first.value, r.value)
        && (forall s | FollowSolution(grammar.value, first.value, s) :: Grows(r.value, s))
        && FollowRulesHold(grammar.value, first.value, r.value)
        && forall s | FollowRulesHold(grammar.value, first.value, s) :: Grows(r.value, s)
    {
      if grammar.None? {
        return Failure(GrammarMissing);
      }
      if first.None? || |first.value| == 0 {
        return Failure(FirstMissing);
      }
      var f := ComputeFollow(grammar.value, first.value);
      follow := Some(f);
      r := Success(f);
    }

    /** `construir_automato_lr0` (lines 306-361): raises without a grammar,
        otherwise stores the canonical collection and its transitions. */
    method BuildStates() returns (r: Result<(), AnalyzerError>)
      requires Valid()
      modifies this
      ensures Valid()
      ensures grammar == old(grammar) && first == old(first) && follow == old(follow) && table == old(table)
      ensures grammar.None? ==> r == Failure(GrammarMissing) && states == old(states) && transitions == old(transitions)
      ensures grammar.Some? ==>
        && r.Success? && states.Some? && transitions.Some?
        && var g, C, trans := grammar.value, states.value, transitions.value;
        && |C| > 0 && C[0] == ClosureOf(g, {Item(0, 0)})
        && (forall i, j | 0 <= i < j < |C| :: C[i] != C[j])
        && (forall k | 0 <= k < |C| :: ValidItems(g, C[k]))
        && (forall n :: n in trans <==> 1 <= n <= |C|)
        && (forall n, x | 1 <= n <= |C| :: x in trans[n] <==> x in Labels(g, C[n - 1]))
        && (forall n, x | n in trans && x in trans[n] ::
              1 <= trans[n][x] <= |C| && C[trans[n][x] - 1] == GotoOf(g, C[n - 1], x))
        && (forall m | 1 <= m <= |C| :: Reachable(trans, m))
    {
      if grammar.None? {
        return Failure(GrammarMissing);
      }
      var C, trans := BuildAutomaton(grammar.value);
      states, transitions := Some(C), Some(trans);
      r := Success(());
    }

    /** `construir_tabela_slr` up to line 419: raises without states,
        transitions or FOLLOW sets; when the stored states do not index the
        stored grammar's productions (the grammar was replaced after the
        automaton was built) the model raises as well; otherwise it stores the
        table `BuildTable` builds, or raises as it does. It succeeds exactly
        when every stored state is in range and no item fails. */
    method BuildParseTable() returns (r: Result<(Table, seq<Conflict>), AnalyzerError>)
      requires Valid()
      modifies this
      ensures Valid()
      ensures grammar == old(grammar) && first == old(first) && follow == old(follow)
      ensures states == old(states) && transitions == old(transitions)
      ensures (|| states.None? || |states.value| == 0 || transitions.None? || |transitions.value| == 0
               || follow.None? || |follow.value| == 0) ==>
        r == Failure(TableFailed(NotInitialized)) && table == old(table)
      ensures r.Failure? ==> table == old(table)
      ensures r.Success? <==>
        && states.Some? && |states.value| > 0 && transitions.Some? && |transitions.value| > 0
        && follow.Some? && |follow.value| > 0 && grammar.Some?
        && StatesInRange(grammar.value, states.value)
        && (forall k | 0 <= k < |states.value| :: Reducible(grammar.value, follow.value, states.value[k]))
      ensures && states.Some? && |states.value| > 0 && transitions.Some? && |transitions.value| > 0
              && follow.Some? && |follow.value| > 0 && grammar.Some? ==>
        && (!StatesInRange(grammar.value, states.value) ==> r == Failure(ItemsOutOfRange))
        && (StatesInRange(grammar.value, states.value) && r.Failure? ==>
              r.error.TableFailed? && StateError(grammar.value, follow.value, states.value, r.error.tableError))
      ensures r.Success? ==>
        && states.Some? && transitions.Some? && follow.Some? && grammar.Some?
        && table == Some(r.value.0) && conflicts == r.value.1
        && (forall k | 0 <= k < |states.value| :: TableItems(grammar.value, states.value[k]))
        && (forall k | 0 <= k < |states.value| :: Reducible(grammar.value, follow.value, states.value[k]))
        && TableUpTo(grammar.value, states.value, transitions.value, follow.value, |states.value|,
                     r.value.0, r.value.1, logs)
    {
      if || states.None? || |states.value| == 0 || transitions.None? || |transitions.value| == 0
         || follow.None? || |follow.value| == 0 {
        return Failure(TableFailed(NotInitialized));
      }
      var res, ls := TableFor(grammar.value, states.value, transitions.value, follow.value);
      if res.Failure? {
        return Failure(res.error);
      }
      table := Some(res.value.0);
      logs, conflicts := ls, res.value.1;
      r := Success(res.value);
    }

    /** `verificar_conflitos_slr` (lines 445-467) on the stored table: raises
        without a table, and otherwise finds nothing. */
    method RecheckTable() returns (r: Result<seq<Conflict>, AnalyzerError>)
      requires Valid()
      ensures table.None? || |table.value| == 0 ==> r == Failure(TableFailed(NotInitialized))
      ensures table.Some? && |table.value| > 0 ==> r == Success([])
    {
      if table.None? {
        return Failure(TableFailed(NotInitialized));
      }
      var res := Recheck(table.value);
      if res.Failure? {
        return Failure(TableFailed(res.error));
      }
      r := Success(res.value);
    }

    /** `gerar_analisador` (lines 543-559): the phases in order; any phase
        that raises makes it answer false, and so does a table with
        conflicts. When it answers true, the stored table is built from the
        stored automaton and FOLLOW sets without a single conflict, so by
        `CellDeterministic` every cell holds the one action its items demand. */
    method Generate(text: string, terminals: seq<Symbol>, nonterminals: seq<Symbol>, start: Symbol, eof: Symbol)
      returns (ok: bool)
      requires Valid()
      modifies this
      ensures Valid()
      ensures ok ==>
        && grammar.Some? && states.Some? && transitions.Some? && follow.Some? && table.Some?
        && grammar.value.start == AugmentedStart && conflicts == []
        && |states.value| > 0 && states.value[0] == ClosureOf(grammar.value, {Item(0, 0)})
        && (forall k | 0 <= k < |states.value| :: ValidItems(grammar.value, states.value[k]))
        && TableUpTo(grammar.value, states.value, transitions.value, follow.value, |states.value|,
                     table.value, [], logs)
    {
      var parsed := AnalyzeGrammar(text, terminals, nonterminals, start, eof);
      if parsed.Failure? {
        return false;
      }
      var augmented := AugmentGrammar();
      if augmented.Failure? {
        return false;
      }
      var f := ComputeFirstSets();
      if f.Failure? {
        return false;
      }
      var fo := ComputeFollowSets();
      if fo.Failure? {
        return false;
      }
      var built := BuildStates();
      if built.Failure? {
        return false;
      }
      var t := BuildParseTable();
      if t.Failure? {
        return false;
      }
      ok := t.value.1 == [];
    }
  }
}
