/** The SLR(1) action/goto table (`construir_tabela_slr`, without the
    hand-written overrides) and the conflict re-check
    (`verificar_conflitos_slr`).

    Each state gets a row with one empty cell per terminal, the end-of-input
    marker and each non-terminal. The items of the state then write actions
    into the row: shift on a terminal after the dot, goto on a non-terminal
    after the dot, accept for the completed start production, reduce on the
    FOLLOW set of a completed production's left side, and accept again for the
    start item `S' -> S . eof`. A write over a different action records a
    conflict and wins. The items of a state are a set whose iteration order
    Python does not fix, so the model performs the writes in an arbitrary order
    and records it as a ghost log: the row is the log applied in order, and the
    log holds exactly the writes the items demand. */
module SlrTable {
  import opened Results
  import opened GrammarModel
  import opened LR0Items
  import opened LR0Automaton
  import opened SetSteps

  /** `s<n>`, `g<n>`, `r<p>` and `a`. */
  datatype Action = Shift(target: nat) | Goto(target: nat) | Reduce(prod: nat) | Accept

  datatype ConflictKind = ShiftReduce | ShiftShift | ReduceReduce | Unknown

  /** `(estado, simbolo, tipo, antiga, nova)`. */
  datatype Conflict = Conflict(state: nat, symbol: Symbol, kind: ConflictKind, replaced: Action, written: Action)

  /** One write of an action into the cell of a symbol. */
  datatype Write = Write(symbol: Symbol, action: Action)

  /** Why building the table raises: a missing phase result, a left side
      without a FOLLOW set, or a FOLLOW symbol without a column (both are
      `KeyError`s in the source). */
  datatype TableError = NotInitialized | MissingFollow(state: nat, symbol: Symbol) | MissingColumn(state: nat, symbol: Symbol)

  type Row = map<Symbol, Option<Action>>
  type Table = map<nat, Row>

  // ---------------------------------------------------------------------------
  // Writing a cell

  /** The columns of every row (lines 375-378). */
  function Columns(g: Grammar): set<Symbol> {
    (set t | t in g.terminals) + {g.eof} + (set a | a in g.nonterminals)
  }

  function InitialRow(g: Grammar): Row {
    map s | s in Columns(g) :: None
  }

  /** Goto writes are not checked for conflicts (line 393). */
  predicate Checked(a: Action) {
    !a.Goto?
  }

  /** The kind recorded when `written` overwrites `replaced`: a shift over a reduce is
      shift/reduce and over anything else shift/shift (line 389); accept is
      always shift/reduce (lines 398, 418); a reduce over a shift is
      shift/reduce, over a reduce reduce/reduce, over anything else unknown
      (lines 404-409). */
  function Kind(replaced: Action, written: Action): ConflictKind {
    match written
    case Shift(_) => if replaced.Reduce? then ShiftReduce else ShiftShift
    case Accept => ShiftReduce
    case Reduce(_) => if replaced.Shift? then ShiftReduce else if replaced.Reduce? then ReduceReduce else Unknown
    case Goto(_) => Unknown
  }

  /** Writing `w` into the row of state `n`: a checked write over a different
      action records one conflict; the new action always wins. */
  function WriteCell(row: Row, n: nat, w: Write, conflicts: seq<Conflict>): (r: (Row, seq<Conflict>))
    requires w.symbol in row
    ensures r.0.Keys == row.Keys && r.0[w.symbol] == Some(w.action)
    ensures forall s | s in row && s != w.symbol :: r.0[s] == row[s]
    ensures |conflicts| <= |r.1| <= |conflicts| + 1 && r.1[..|conflicts|] == conflicts
    ensures |r.1| == |conflicts| + 1 <==> Checked(w.action) && row[w.symbol] != None && row[w.symbol] != Some(w.action)
  {
    var cell := row[w.symbol];
    (row[w.symbol := Some(w.action)],
     if Checked(w.action) && cell.Some? && cell.value != w.action
     then conflicts + [Conflict(n, w.symbol, Kind(cell.value, w.action), cell.value, w.action)]
     else conflicts)
  }

  /** The row and the conflicts after the writes `ws`, in order. */
  function ApplyWrites(row: Row, n: nat, ws: seq<Write>): (r: (Row, seq<Conflict>))
    requires OnColumns(row, ws)
    ensures r.0.Keys == row.Keys
    decreases |ws|
  {
    if |ws| == 0 then (row, [])
    else
      var before := ApplyWrites(row, n, ws[..|ws| - 1]);
      WriteCell(before.0, n, ws[|ws| - 1], before.1)
  }

  /** The symbols a list of writes touches are columns. */
  ghost predicate OnColumns(row: Row, ws: seq<Write>) {
    forall w | w in ws :: w.symbol in row
  }

  function Written(ws: seq<Write>): set<Write> {
    set w | w in ws
  }

  // ---------------------------------------------------------------------------
  // What the writes mean

  /** Every recorded conflict is about state `n`, between two different
      actions, of the kind `Kind` gives, for a checked write of the log. */
  lemma {:induction false} ConflictsWellFormed(row: Row, n: nat, ws: seq<Write>)
    requires OnColumns(row, ws)
    ensures forall c | c in ApplyWrites(row, n, ws).1 ::
      && c.state == n && c.replaced != c.written && c.kind == Kind(c.replaced, c.written)
      && Checked(c.written) && Write(c.symbol, c.written) in ws
    decreases |ws|
  {
    if |ws| > 0 {
      var init := ws[..|ws| - 1];
      ConflictsWellFormed(row, n, init);
      forall c | c in ApplyWrites(row, n, init).1 ensures Write(c.symbol, c.written) in ws {
        assert Write(c.symbol, c.written) in init;
      }
    }
  }

  /** The position of the last write on `s`, or -1 when there is none. */
  function LastOn(ws: seq<Write>, s: Symbol): (r: int)
    ensures -1 <= r < |ws|
    ensures r >= 0 ==> ws[r].symbol == s
    ensures forall j | r < j < |ws| :: ws[j].symbol != s
    decreases |ws|
  {
    if |ws| == 0 then -1
    else if ws[|ws| - 1].symbol == s then |ws| - 1
    else
      var r := LastOn(ws[..|ws| - 1], s);
      assert forall j | r < j < |ws| - 1 :: ws[j] == ws[..|ws| - 1][j];
      r
  }

  /** Last write wins: a cell nobody writes keeps its value, any other holds
      the action of the last write on it. */
  lemma {:induction false} LastWriteWins(row: Row, n: nat, ws: seq<Write>, s: Symbol)
    requires OnColumns(row, ws) && s in row
    ensures ApplyWrites(row, n, ws).0[s] == if LastOn(ws, s) < 0 then row[s] else Some(ws[LastOn(ws, s)].action)
    decreases |ws|
  {
    if |ws| > 0 && ws[|ws| - 1].symbol != s {
      LastWriteWins(row, n, ws[..|ws| - 1], s);
    }
  }

  /** The cell of the last write on a symbol, among the first `k` writes. */
  lemma {:induction false} CellBeforeWrite(row: Row, n: nat, ws: seq<Write>, i: nat, k: nat)
    requires OnColumns(row, ws) && i < k <= |ws| && ws[i].symbol in row
    requires forall j | i < j < k :: ws[j].symbol != ws[i].symbol
    ensures ApplyWrites(row, n, ws[..k]).0[ws[i].symbol] == Some(ws[i].action)
    decreases k
  {
    var s := ws[i].symbol;
    var pre := ws[..k];
    assert pre[..k - 1] == ws[..k - 1];
    if k - 1 > i {
      CellBeforeWrite(row, n, ws, i, k - 1);
    }
  }

  /** The conflicts of a prefix of the log stay recorded. */
  lemma {:induction false} ConflictsGrow(row: Row, n: nat, ws: seq<Write>, k: nat)
    requires OnColumns(row, ws) && k <= |ws|
    ensures forall c | c in ApplyWrites(row, n, ws[..k]).1 :: c in ApplyWrites(row, n, ws).1
    decreases |ws| - k
  {
    if k < |ws| {
      var init := ws[..|ws| - 1];
      assert init[..k] == ws[..k];
      ConflictsGrow(row, n, init, k);
      assert forall c | c in ApplyWrites(row, n, init).1 :: c in ApplyWrites(row, n, ws).1;
    } else {
      assert ws[..k] == ws;
    }
  }

  /** When a checked write follows an earlier write of a different action on
      the same symbol, a conflict on that symbol is recorded, with a write of
      the later action. */
  lemma {:induction false} DifferentWritesConflict(row: Row, n: nat, ws: seq<Write>, i: nat, j: nat)
    requires OnColumns(row, ws) && i < j < |ws| && ws[i].symbol == ws[j].symbol
    requires Checked(ws[j].action) && ws[i].action != ws[j].action
    ensures exists c | c in ApplyWrites(row, n, ws).1 :: c.symbol == ws[j].symbol && c.written == ws[j].action
    decreases j
  {
    var s := ws[j].symbol;
    // The last write on `s` before `j`.
    var p := i;
    while exists q | p < q < j :: ws[q].symbol == s
      invariant i <= p < j && ws[p].symbol == s
      decreases j - p
    {
      var q :| p < q < j && ws[q].symbol == s;
      p := q;
    }
    if ws[p].action != ws[j].action {
      CellBeforeWrite(row, n, ws, p, j);
      ConflictAt(row, n, ws, j, ws[p].action);
    } else {
      DifferentWritesConflict(row, n, ws, i, p);
    }
  }

  /** A checked write on a cell that holds a different action records a
      conflict on it. */
  lemma ConflictAt(row: Row, n: nat, ws: seq<Write>, j: nat, a: Action)
    requires OnColumns(row, ws) && j < |ws| && Checked(ws[j].action) && a != ws[j].action
    requires ApplyWrites(row, n, ws[..j]).0[ws[j].symbol] == Some(a)
    ensures exists c | c in ApplyWrites(row, n, ws).1 :: c.symbol == ws[j].symbol && c.written == ws[j].action
  {
    ConflictsGrow(row, n, ws, j + 1);
    var pre := ws[..j + 1];
    assert pre[..j] == ws[..j];
    var c := Conflict(n, ws[j].symbol, Kind(a, ws[j].action), a, ws[j].action);
    assert c in ApplyWrites(row, n, pre).1;
  }

  // ---------------------------------------------------------------------------
  // What the items demand

  /** An item the table phase can read: `self.gramatica.producoes[idx_prod]`
      (line 381) raises `IndexError` unless the production exists. The dot is
      not checked: at or past the end of the right side the item counts as
      completed (line 383). */
  predicate TableItem(g: Grammar, it: Item) {
    it.prod < |g.productions|
  }

  ghost predicate TableItems(g: Grammar, s: set<Item>) {
    forall it | it in s :: TableItem(g, it)
  }

  /** The items of the LR(0) automaton are all readable. */
  lemma ValidItemsReadable(g: Grammar, s: set<Item>)
    requires ValidItems(g, s)
    ensures TableItems(g, s)
  {
  }

  /** The writes item `it` of state `n` demands in the first loop over the
      items (lines 380-411): a shift on a terminal after the dot, a goto on a
      non-terminal after the dot (both only when the state has a transition on
      it), accept on the end-of-input marker for the completed start
      production, and a reduce on every FOLLOW symbol of the left side of any
      other completed production. */
  function ItemWrites(g: Grammar, trans: Transitions, follow: map<Symbol, set<Symbol>>, n: nat, it: Item): set<Write>
    requires TableItem(g, it)
  {
    var p := g.productions[it.prod];
    if it.dot < |p.right| then
      var x := p.right[it.dot];
      if n in trans && x in trans[n] then
        if x in g.terminals then {Write(x, Shift(trans[n][x]))}
        else if x in g.nonterminals then {Write(x, Goto(trans[n][x]))}
        else {}
      else {}
    else if it.prod == 0 then {Write(g.eof, Accept)}
    else if p.left in follow then ReduceWrites(follow[p.left], it.prod)
    else {}
  }

  /** The write of the second loop over the items (lines 413-419): accept on
      the end-of-input marker for `S' -> S . eof`. */
  function FinalAccept(g: Grammar, it: Item): set<Write>
    requires TableItem(g, it)
  {
    var p := g.productions[it.prod];
    if it.prod == 0 && it.dot == 1 && |p.right| == 2 && p.right[1] == g.eof then {Write(g.eof, Accept)} else {}
  }

  /** A completed item whose reduce raises a `KeyError`: its left side has no
      FOLLOW set, or a FOLLOW symbol has no column. */
  predicate ItemFails(g: Grammar, follow: map<Symbol, set<Symbol>>, it: Item)
    requires TableItem(g, it)
  {
    var p := g.productions[it.prod];
    && it.dot >= |p.right| && it.prod != 0
    && (p.left !in follow || exists t | t in follow[p.left] :: t !in Columns(g))
  }

  /** No item of the state fails. */
  ghost predicate Reducible(g: Grammar, follow: map<Symbol, set<Symbol>>, I: ItemSet)
    requires TableItems(g, I)
  {
    forall it | it in I :: !ItemFails(g, follow, it)
  }

  /** The error item `it` of state `n` raises with (lines 400-403): a missing
      FOLLOW entry for its left side, or otherwise a FOLLOW symbol that has no
      column. */
  ghost predicate ItemError(g: Grammar, follow: map<Symbol, set<Symbol>>, n: nat, it: Item, e: TableError) {
    && TableItem(g, it)
    && ItemFails(g, follow, it)
    && var p := g.productions[it.prod];
       if p.left !in follow then e == MissingFollow(n, p.left)
       else e.MissingColumn? && e.state == n && e.symbol in follow[p.left] && e.symbol !in Columns(g)
  }

  /** Some item of some state raises with `e` (state `k` is row `k + 1`). */
  ghost predicate StateError(g: Grammar, follow: map<Symbol, set<Symbol>>, states: seq<ItemSet>, e: TableError) {
    exists k, it | 0 <= k < |states| && it in states[k] :: ItemError(g, follow, k + 1, it, e)
  }

  function FirstWrites(g: Grammar, trans: Transitions, follow: map<Symbol, set<Symbol>>, n: nat, s: ItemSet): set<Write>
    requires TableItems(g, s)
  {
    set it, w | it in s && w in ItemWrites(g, trans, follow, n, it) :: w
  }

  function FinalWrites(g: Grammar, s: ItemSet): set<Write>
    requires TableItems(g, s)
  {
    set it, w | it in s && w in FinalAccept(g, it) :: w
  }

  /** Every write the items of state `n` demand. */
  function Demanded(g: Grammar, trans: Transitions, follow: map<Symbol, set<Symbol>>, n: nat, s: ItemSet): set<Write>
    requires TableItems(g, s)
  {
    FirstWrites(g, trans, follow, n, s) + FinalWrites(g, s)
  }

  lemma FirstWritesAdd(g: Grammar, trans: Transitions, follow: map<Symbol, set<Symbol>>, n: nat, s: ItemSet, it: Item)
    requires TableItems(g, s) && TableItem(g, it)
    ensures TableItems(g, s + {it})
    ensures FirstWrites(g, trans, follow, n, s + {it}) == FirstWrites(g, trans, follow, n, s) + ItemWrites(g, trans, follow, n, it)
  {
  }

  lemma FinalWritesAdd(g: Grammar, s: ItemSet, it: Item)
    requires TableItems(g, s) && TableItem(g, it)
    ensures TableItems(g, s + {it})
    ensures FinalWrites(g, s + {it}) == FinalWrites(g, s) + FinalAccept(g, it)
  {
  }

  /** The writes of the second loop over the items, in order: only the item
      `S' -> S . eof` (production 0, dot 1) demands one, so the loop writes
      accept on the end-of-input marker once or not at all. */
  function FinalLog(g: Grammar, s: ItemSet): (ws: seq<Write>)
    requires TableItems(g, s)
    ensures Written(ws) == FinalWrites(g, s)
    ensures |ws| <= 1 && forall w | w in ws :: w == Write(g.eof, Accept)
  {
    if FinalWrites(g, s) == {} then [] else [Write(g.eof, Accept)]
  }

  /** Visiting one more item appends its accept, if any, to the second
      loop's writes. */
  lemma FinalLogAdd(g: Grammar, s: ItemSet, it: Item)
    requires TableItems(g, s) && TableItem(g, it) && it !in s
    ensures TableItems(g, s + {it})
    ensures FinalLog(g, s + {it}) == FinalLog(g, s) + if FinalAccept(g, it) == {} then [] else [Write(g.eof, Accept)]
  {
    FinalWritesAdd(g, s, it);
    if FinalAccept(g, it) != {} {
      forall other | other in s ensures FinalAccept(g, other) == {} {
        assert other != it;
      }
    }
  }

  // ---------------------------------------------------------------------------
  // Building a row

  /** Lines 372-378: a row with an empty cell for each terminal, the
      end-of-input marker and each non-terminal. */
  method NewRow(g: Grammar) returns (row: Row)
    ensures row.Keys == Columns(g) && forall s | s in row :: row[s] == None
    ensures row == InitialRow(g)
  {
    row := map[];
    var cols := g.terminals + [g.eof];
    for i := 0 to |cols|
      invariant row.Keys == set t | t in cols[..i]
      invariant forall s | s in row :: row[s] == None
    {
      assert cols[..i + 1] == cols[..i] + [cols[i]];
      row := row[cols[i] := None];
    }
    for i := 0 to |g.nonterminals|
      invariant row.Keys == (set t | t in cols) + set a | a in g.nonterminals[..i]
      invariant forall s | s in row :: row[s] == None
    {
      assert g.nonterminals[..i + 1] == g.nonterminals[..i] + [g.nonterminals[i]];
      row := row[g.nonterminals[i] := None];
    }
    assert cols[..|cols|] == cols && g.nonterminals[..|g.nonterminals|] == g.nonterminals;
  }

  /** The row and conflicts of state `n` are the log of writes applied in
      order to a fresh row. */
  ghost predicate Logged(g: Grammar, n: nat, row: Row, conflicts: seq<Conflict>, log: seq<Write>) {
    OnColumns(InitialRow(g), log) && (row, conflicts) == ApplyWrites(InitialRow(g), n, log)
  }

  /** One cell write as the source performs it: a checked write over a
      different action appends a conflict; the action is then stored. The
      ghost log grows by the write. */
  method Record(row: Row, conflicts: seq<Conflict>, n: nat, w: Write, ghost row0: Row, ghost log: seq<Write>)
    returns (row': Row, conflicts': seq<Conflict>, ghost log': seq<Write>)
    requires OnColumns(row0, log) && (row, conflicts) == ApplyWrites(row0, n, log) && w.symbol in row0
    ensures OnColumns(row0, log') && (row', conflicts') == ApplyWrites(row0, n, log')
    ensures log' == log + [w] && Written(log') == Written(log) + {w}
  {
    var cell := row[w.symbol];
    conflicts' := conflicts;
    if Checked(w.action) && cell.Some? && cell.value != w.action {
      conflicts' := conflicts + [Conflict(n, w.symbol, Kind(cell.value, w.action), cell.value, w.action)];
    }
    row' := row[w.symbol := Some(w.action)];
    log' := log + [w];
    ApplySnoc(row0, n, log, w, log');
  }

  /** Applying one more write is one more `WriteCell`; the write joins the
      written set. */
  lemma ApplySnoc(row0: Row, n: nat, log: seq<Write>, w: Write, log': seq<Write>)
    requires OnColumns(row0, log) && w.symbol in row0 && log' == log + [w]
    ensures OnColumns(row0, log') && Written(log') == Written(log) + {w}
    ensures ApplyWrites(row0, n, log')
         == WriteCell(ApplyWrites(row0, n, log).0, n, w, ApplyWrites(row0, n, log).1)
  {
    assert log'[..|log'| - 1] == log;
  }

  /** A reduce by production `p` on each symbol of `ts`. */
  function ReduceWrites(ts: set<Symbol>, p: nat): set<Write> {
    set t | t in ts :: Write(t, Reduce(p))
  }

  lemma ReduceWritesAdd(ts: set<Symbol>, t: Symbol, p: nat)
    ensures ReduceWrites(ts + {t}, p) == ReduceWrites(ts, p) + {Write(t, Reduce(p))}
  {
  }

  /** The reduce loop of lines 402-411 for item `it` of state `n`: it raises
      exactly when some symbol of `ts` has no column, and otherwise logs a
      reduce on each of them. */
  method ReduceOn(g: Grammar, follow: map<Symbol, set<Symbol>>, n: nat, it: Item, ts: set<Symbol>,
                  row: Row, conflicts: seq<Conflict>, ghost log: seq<Write>)
    returns (ok: bool, row': Row, conflicts': seq<Conflict>, ghost log': seq<Write>)
    requires TableItem(g, it) && Logged(g, n, row, conflicts, log)
    ensures Logged(g, n, row', conflicts', log')
    ensures ok <==> ts <= Columns(g)
    ensures ok ==> Written(log') == Written(log) + ReduceWrites(ts, it.prod)
    ensures |log'| <= |log| + |Columns(g)|
  {
    row', conflicts', log' := row, conflicts, log;
    var rest := ts;
    ghost var seen := {};
    while rest != {}
      invariant rest <= ts && seen == ts - rest && seen <= Columns(g)
      invariant Logged(g, n, row', conflicts', log') && row'.Keys == Columns(g)
      invariant Written(log') == Written(log) + ReduceWrites(seen, it.prod)
      invariant |log'| == |log| + |seen|
      decreases |rest|
    {
      var t :| t in rest;
      if t !in row' {
        SubsetNoLarger(seen, Columns(g));
        return false, row', conflicts', log';
      }
      ghost var prev := log';
      row', conflicts', log' := Record(row', conflicts', n, Write(t, Reduce(it.prod)), InitialRow(g), log');
      ReduceWritesAdd(seen, t, it.prod);
      UnionStep(Written(log), ReduceWrites(seen, it.prod), {Write(t, Reduce(it.prod))}, Written(prev), Written(log'),
                ReduceWrites(seen + {t}, it.prod));
      MoveOne(ts, rest, seen, t, rest - {t}, seen + {t});
      rest := rest - {t};
      seen := seen + {t};
    }
    assert seen == ts;
    SubsetNoLarger(seen, Columns(g));
    ok := true;
  }

  /** The body of the first loop over the items (lines 381-411) for item
      `it` of state `n`: it raises exactly when the item fails, and otherwise
      adds the item's writes to the log. */
  method ApplyItem(g: Grammar, trans: Transitions, follow: map<Symbol, set<Symbol>>, n: nat, it: Item,
                   row: Row, conflicts: seq<Conflict>, ghost log: seq<Write>)
    returns (err: Option<TableError>, row': Row, conflicts': seq<Conflict>, ghost log': seq<Write>)
    requires TableItem(g, it) && Logged(g, n, row, conflicts, log)
    ensures Logged(g, n, row', conflicts', log')
    ensures err.None? <==> !ItemFails(g, follow, it)
    ensures err.Some? ==> ItemError(g, follow, n, it, err.value)
    ensures err.None? ==> Written(log') == Written(log) + ItemWrites(g, trans, follow, n, it)
    ensures |log'| <= |log| + |Columns(g)|
  {
    assert g.eof in Columns(g);
    err, row', conflicts', log' := None, row, conflicts, log;
    var p := g.productions[it.prod];
    if it.dot < |p.right| {
      var x := p.right[it.dot];
      if n in trans && x in trans[n] {
        var target := trans[n][x];
        if x in g.terminals {
          row', conflicts', log' := Record(row, conflicts, n, Write(x, Shift(target)), InitialRow(g), log);
        } else if x in g.nonterminals {
          row', conflicts', log' := Record(row, conflicts, n, Write(x, Goto(target)), InitialRow(g), log);
        }
      }
    } else if it.prod == 0 {
      row', conflicts', log' := Record(row, conflicts, n, Write(g.eof, Accept), InitialRow(g), log);
    } else if p.left !in follow {
      err := Some(MissingFollow(n, p.left));
    } else {
      var ok;
      ok, row', conflicts', log' := ReduceOn(g, follow, n, it, follow[p.left], row, conflicts, log);
      if !ok {
        var t :| t in follow[p.left] && t !in Columns(g);
        err := Some(MissingColumn(n, t));
      }
    }
  }

  /** Lines 370-419 for state `n` with items `I`: a fresh row, the first loop
      over the items (shift, goto, accept, reduce), then the second loop (the
      accept of `S' -> S . eof`). It raises exactly when some completed item's
      reduce has no FOLLOW set or no column; otherwise the row and its
      conflicts are the log of writes applied in order: the first loop's
      writes, then the second loop's accept. */
  method BuildRow(g: Grammar, trans: Transitions, follow: map<Symbol, set<Symbol>>, n: nat, I: ItemSet)
    returns (r: Result<(Row, seq<Conflict>), TableError>, ghost log: seq<Write>)
    requires TableItems(g, I)
    ensures r.Success? <==> Reducible(g, follow, I)
    ensures r.Failure? ==> exists it | it in I :: ItemError(g, follow, n, it, r.error)
    ensures r.Success? ==>
      && OnColumns(InitialRow(g), log)
      && r.value == ApplyWrites(InitialRow(g), n, log)
      && InLoopOrder(g, trans, follow, n, I, log)
      && Written(log) == Demanded(g, trans, follow, n, I)
  {
    var row := NewRow(g);
    var err, conflicts;
    err, row, conflicts, log := ActionPass(g, trans, follow, n, I, row);
    if err.Some? {
      return Failure(err.value), log;
    }
    ghost var first := log;
    row, conflicts, log := AcceptPass(g, n, I, row, conflicts, log);
    assert log[..|first|] == first && log[|first|..] == FinalLog(g, I);
    r := Success((row, conflicts));
  }

  /** At most one write per item and column in the first loop. */
  function FirstLogCap(g: Grammar, I: ItemSet): nat {
    |I| * |Columns(g)|
  }

  /** The log of row `n` in the order of the two loops over the items: first
      the writes the first loop demands, at most one per item and column,
      then the accept of `S' -> S . eof` if the state has that item. */
  ghost predicate InLoopOrder(g: Grammar, trans: Transitions, follow: map<Symbol, set<Symbol>>, n: nat, I: ItemSet,
                              log: seq<Write>)
    requires TableItems(g, I)
  {
    var k := |log| - |FinalLog(g, I)|;
    && 0 <= k <= FirstLogCap(g, I)
    && Written(log[..k]) == FirstWrites(g, trans, follow, n, I)
    && log[k..] == FinalLog(g, I)
  }

  /** The first loop over the items (lines 380-411), from a fresh row: it
      raises exactly when some item fails, and otherwise logs the writes the
      items demand. */
  method ActionPass(g: Grammar, trans: Transitions, follow: map<Symbol, set<Symbol>>, n: nat, I: ItemSet, row: Row)
    returns (err: Option<TableError>, row': Row, conflicts': seq<Conflict>, ghost log': seq<Write>)
    requires TableItems(g, I) && row == InitialRow(g)
    ensures Logged(g, n, row', conflicts', log')
    ensures err.None? <==> Reducible(g, follow, I)
    ensures err.Some? ==> exists it | it in I :: ItemError(g, follow, n, it, err.value)
    ensures err.None? ==> Written(log') == FirstWrites(g, trans, follow, n, I)
    ensures err.None? ==> |log'| <= |I| * |Columns(g)|
  {
    row', conflicts', log' := row, [], [];
    var rest := I;
    ghost var done: ItemSet := {};
    while rest != {}
      invariant rest <= I && done == I - rest
      invariant Logged(g, n, row', conflicts', log')
      invariant Written(log') == FirstWrites(g, trans, follow, n, done)
      invariant forall it | it in done :: !ItemFails(g, follow, it)
      invariant |log'| <= |done| * |Columns(g)|
      decreases |rest|
    {
      var it :| it in rest;
      FirstWritesAdd(g, trans, follow, n, done, it);
      ghost var prev := log';
      err, row', conflicts', log' := ApplyItem(g, trans, follow, n, it, row', conflicts', log');
      if err.Some? {
        return;
      }
      OneMoreRound(done, it, |Columns(g)|, |prev|, |log'|);
      MoveOne(I, rest, done, it, rest - {it}, done + {it});
      rest := rest - {it};
      done := done + {it};
    }
    assert done == I;
    err := None;
  }

  /** At most `c` writes for each visited item, and one more item. */
  lemma OneMoreRound(done: ItemSet, it: Item, c: nat, before: nat, after: nat)
    requires it !in done && before <= |done| * c && after <= before + c
    ensures after <= |done + {it}| * c
  {
    assert |done + {it}| == |done| + 1;
    assert (|done| + 1) * c == |done| * c + c;
  }

  /** The body of the second loop over the items (lines 414-419) for item
      `it`: it appends the item's accept, if any, to the log. */
  method AcceptItem(g: Grammar, n: nat, it: Item, row: Row, conflicts: seq<Conflict>, ghost log: seq<Write>)
    returns (row': Row, conflicts': seq<Conflict>, ghost log': seq<Write>)
    requires TableItem(g, it) && Logged(g, n, row, conflicts, log)
    ensures Logged(g, n, row', conflicts', log')
    ensures log' == log + if FinalAccept(g, it) == {} then [] else [Write(g.eof, Accept)]
    ensures Written(log') == Written(log) + FinalAccept(g, it)
  {
    row', conflicts', log' := row, conflicts, log;
    if it.prod == 0 {
      var p := g.productions[0];
      if it.dot == 1 && |p.right| == 2 && p.right[1] == g.eof {
        row', conflicts', log' := Record(row, conflicts, n, Write(g.eof, Accept), InitialRow(g), log);
      }
    }
  }

  /** The second loop over the items (lines 413-419): it runs after the first
      and appends the accept of `S' -> S . eof`, if the state has that item,
      to the first loop's log. */
  method AcceptPass(g: Grammar, n: nat, I: ItemSet, row: Row, conflicts: seq<Conflict>, ghost log: seq<Write>)
    returns (row': Row, conflicts': seq<Conflict>, ghost log': seq<Write>)
    requires TableItems(g, I) && Logged(g, n, row, conflicts, log)
    ensures Logged(g, n, row', conflicts', log')
    ensures log' == log + FinalLog(g, I)
    ensures Written(log') == Written(log) + FinalWrites(g, I)
  {
    row', conflicts', log' := row, conflicts, log;
    var rest := I;
    ghost var done: ItemSet := {};
    while rest != {}
      invariant rest <= I && done == I - rest
      invariant Logged(g, n, row', conflicts', log')
      invariant log' == log + FinalLog(g, done)
      decreases |rest|
    {
      var it :| it in rest;
      FinalLogAdd(g, done, it);
      row', conflicts', log' := AcceptItem(g, n, it, row', conflicts', log');
      MoveOne(I, rest, done, it, rest - {it}, done + {it});
      rest := rest - {it};
      done := done + {it};
    }
    assert done == I;
    WrittenAppend(log, FinalLog(g, I));
  }

  /** The writes of two logs one after the other. */
  lemma WrittenAppend(a: seq<Write>, b: seq<Write>)
    ensures Written(a + b) == Written(a) + Written(b)
  {
    assert forall w | w in a + b :: w in a || w in b;
  }

  // ---------------------------------------------------------------------------
  // The table

  /** Row `n` with items `I` is the log of writes applied in order to a fresh
      row; the log holds the first loop's writes and then the second loop's,
      and so exactly the writes the items demand. */
  ghost predicate RowBuilt(g: Grammar, trans: Transitions, follow: map<Symbol, set<Symbol>>, n: nat, I: ItemSet,
                           row: Row, log: seq<Write>)
  {
    && TableItems(g, I) && OnColumns(InitialRow(g), log)
    && row == ApplyWrites(InitialRow(g), n, log).0
    && InLoopOrder(g, trans, follow, n, I, log)
    && Written(log) == Demanded(g, trans, follow, n, I)
  }

  /** The conflicts of the rows `1..|logs|`, row after row. */
  function AllConflicts(g: Grammar, logs: seq<seq<Write>>): seq<Conflict>
    requires forall k | 0 <= k < |logs| :: OnColumns(InitialRow(g), logs[k])
    decreases |logs|
  {
    if |logs| == 0 then []
    else
      assert forall k | 0 <= k < |logs| - 1 :: logs[..|logs| - 1][k] == logs[k];
      AllConflicts(g, logs[..|logs| - 1]) + ApplyWrites(InitialRow(g), |logs|, logs[|logs| - 1]).1
  }

  /** The first `k` rows of the table are built from the first `k` states,
      and the conflicts are theirs. */
  ghost predicate TableUpTo(g: Grammar, states: seq<ItemSet>, trans: Transitions, follow: map<Symbol, set<Symbol>>,
                            k: nat, table: Table, conflicts: seq<Conflict>, logs: seq<seq<Write>>)
  {
    && k <= |states| && |logs| == k
    && (forall n: nat :: n in table <==> 1 <= n <= k)
    && (forall j | 0 <= j < k :: RowBuilt(g, trans, follow, j + 1, states[j], table[j + 1], logs[j]))
    && (forall j | 0 <= j < k :: OnColumns(InitialRow(g), logs[j]))
    && conflicts == AllConflicts(g, logs)
  }

  /** The conflicts of one more row come after those of the earlier rows. */
  lemma ConflictsStep(g: Grammar, logs: seq<seq<Write>>, log: seq<Write>, logs': seq<seq<Write>>)
    requires forall k | 0 <= k < |logs| :: OnColumns(InitialRow(g), logs[k])
    requires OnColumns(InitialRow(g), log) && logs' == logs + [log]
    ensures forall k | 0 <= k < |logs'| :: OnColumns(InitialRow(g), logs'[k])
    ensures AllConflicts(g, logs') == AllConflicts(g, logs) + ApplyWrites(InitialRow(g), |logs'|, log).1
  {
    assert logs'[..|logs'| - 1] == logs;
  }

  /** Adding row `k + 1` keeps the first `k` rows. */
  lemma TableStep(g: Grammar, states: seq<ItemSet>, trans: Transitions, follow: map<Symbol, set<Symbol>>,
                  k: nat, table: Table, conflicts: seq<Conflict>, logs: seq<seq<Write>>,
                  row: Row, rowConflicts: seq<Conflict>, log: seq<Write>,
                  table': Table, conflicts': seq<Conflict>, logs': seq<seq<Write>>)
    requires TableUpTo(g, states, trans, follow, k, table, conflicts, logs) && k < |states|
    requires RowBuilt(g, trans, follow, k + 1, states[k], row, log)
    requires rowConflicts == ApplyWrites(InitialRow(g), k + 1, log).1
    requires table' == table[k + 1 := row] && conflicts' == conflicts + rowConflicts && logs' == logs + [log]
    ensures TableUpTo(g, states, trans, follow, k + 1, table', conflicts', logs')
  {
    ConflictsStep(g, logs, log, logs');
    assert table'[k + 1] == row && logs'[k] == log;
    EarlierRowsKept(g, states, trans, follow, k, table, logs, row, log, table', logs');
  }

  /** Rows `1..k` are untouched when row `k + 1` is added. */
  lemma EarlierRowsKept(g: Grammar, states: seq<ItemSet>, trans: Transitions, follow: map<Symbol, set<Symbol>>,
                        k: nat, table: Table, logs: seq<seq<Write>>, row: Row, log: seq<Write>,
                        table': Table, logs': seq<seq<Write>>)
    requires k < |states| && |logs| == k && forall n: nat :: n in table <==> 1 <= n <= k
    requires forall j | 0 <= j < k :: RowBuilt(g, trans, follow, j + 1, states[j], table[j + 1], logs[j])
    requires table' == table[k + 1 := row] && logs' == logs + [log]
    ensures forall j | 0 <= j < k :: RowBuilt(g, trans, follow, j + 1, states[j], table'[j + 1], logs'[j])
  {
    forall j | 0 <= j < k
      ensures RowBuilt(g, trans, follow, j + 1, states[j], table'[j + 1], logs'[j])
    {
      assert logs'[j] == logs[j] && table'[j + 1] == table[j + 1];
    }
  }

  /** Lines 363-419: without the three phase results the table is not built;
      otherwise each state `n` (numbered from 1) gets the row `BuildRow`
      builds, and the conflicts of all rows are collected in order. It raises
      exactly when some completed item of some state has a reduce without a
      FOLLOW set or a column. */
  method BuildTable(g: Grammar, states: seq<ItemSet>, trans: Transitions, follow: map<Symbol, set<Symbol>>)
    returns (r: Result<(Table, seq<Conflict>), TableError>, ghost logs: seq<seq<Write>>)
    requires forall k | 0 <= k < |states| :: TableItems(g, states[k])
    ensures |states| == 0 || |trans| == 0 || |follow| == 0 ==> r == Failure(NotInitialized)
    ensures r.Success? <==>
      && |states| > 0 && |trans| > 0 && |follow| > 0
      && forall k | 0 <= k < |states| :: Reducible(g, follow, states[k])
    ensures r.Failure? && |states| > 0 && |trans| > 0 && |follow| > 0 ==> StateError(g, follow, states, r.error)
    ensures r.Success? ==> TableUpTo(g, states, trans, follow, |states|, r.value.0, r.value.1, logs)
  {
    logs := [];
    if |states| == 0 || |trans| == 0 || |follow| == 0 {
      return Failure(NotInitialized), logs;
    }
    var table: Table := map[];
    var conflicts: seq<Conflict> := [];
    for k := 0 to |states|
      invariant TableUpTo(g, states, trans, follow, k, table, conflicts, logs)
      invariant forall k' | 0 <= k' < k :: Reducible(g, follow, states[k'])
    {
      var res, log := BuildRow(g, trans, follow, k + 1, states[k]);
      if res.Failure? {
        ghost var it :| it in states[k] && ItemError(g, follow, k + 1, it, res.error);
        return Failure(res.error), logs;
      }
      var (row, rowConflicts) := res.value;
      assert RowBuilt(g, trans, follow, k + 1, states[k], row, log);
      TableStep(g, states, trans, follow, k, table, conflicts, logs, row, rowConflicts, log,
                table[k + 1 := row], conflicts + rowConflicts, logs + [log]);
      table := table[k + 1 := row];
      conflicts := conflicts + rowConflicts;
      logs := logs + [log];
    }
    r := Success((table, conflicts));
  }

  // ---------------------------------------------------------------------------
  // What the table means

  /** Every conflict of row `n` is among the conflicts of the table. */
  lemma {:induction false} RowConflictsListed(g: Grammar, logs: seq<seq<Write>>, n: nat)
    requires forall k | 0 <= k < |logs| :: OnColumns(InitialRow(g), logs[k])
    requires 1 <= n <= |logs|
    ensures forall c | c in ApplyWrites(InitialRow(g), n, logs[n - 1]).1 :: c in AllConflicts(g, logs)
    decreases |logs|
  {
    if n < |logs| {
      var init := logs[..|logs| - 1];
      assert init[n - 1] == logs[n - 1];
      RowConflictsListed(g, init, n);
    }
  }

  /** Every conflict of the table belongs to the row of its state. */
  lemma {:induction false} ConflictsFromRows(g: Grammar, logs: seq<seq<Write>>)
    requires forall k | 0 <= k < |logs| :: OnColumns(InitialRow(g), logs[k])
    ensures forall c | c in AllConflicts(g, logs) ::
      1 <= c.state <= |logs| && c in ApplyWrites(InitialRow(g), c.state, logs[c.state - 1]).1
    decreases |logs|
  {
    if |logs| > 0 {
      var init := logs[..|logs| - 1];
      ConflictsFromRows(g, init);
      ConflictsWellFormed(InitialRow(g), |logs|, logs[|logs| - 1]);
      forall c | c in AllConflicts(g, logs)
        ensures 1 <= c.state <= |logs| && c in ApplyWrites(InitialRow(g), c.state, logs[c.state - 1]).1
      {
        if c in AllConflicts(g, init) {
          assert logs[c.state - 1] == init[c.state - 1];
        }
      }
    }
  }

  /** A cell is empty exactly when no write on its symbol is demanded, and
      otherwise holds a demanded action. */
  lemma CellIsDemanded(g: Grammar, n: nat, log: seq<Write>, s: Symbol)
    requires OnColumns(InitialRow(g), log) && s in Columns(g)
    ensures ApplyWrites(InitialRow(g), n, log).0[s] == None <==> forall w | w in Written(log) :: w.symbol != s
    ensures ApplyWrites(InitialRow(g), n, log).0[s].Some? ==>
      Write(s, ApplyWrites(InitialRow(g), n, log).0[s].value) in Written(log)
  {
    LastWriteWins(InitialRow(g), n, log, s);
    var p := LastOn(log, s);
    if p >= 0 {
      assert log[p] in Written(log);
    } else {
      assert forall w | w in Written(log) :: w.symbol != s;
    }
  }

  /** Without a recorded conflict on a symbol, any two checked writes on it
      agree. */
  lemma NoConflictAgrees(g: Grammar, n: nat, log: seq<Write>, s: Symbol, w1: Write, w2: Write)
    requires OnColumns(InitialRow(g), log)
    requires forall c | c in ApplyWrites(InitialRow(g), n, log).1 :: c.symbol != s
    requires w1 in Written(log) && w2 in Written(log) && w1.symbol == s && w2.symbol == s
    requires Checked(w1.action) && Checked(w2.action)
    ensures w1.action == w2.action
  {
    var i :| 0 <= i < |log| && log[i] == w1;
    var j :| 0 <= j < |log| && log[j] == w2;
    if i < j && w1.action != w2.action {
      DifferentWritesConflict(InitialRow(g), n, log, i, j);
    } else if j < i && w1.action != w2.action {
      DifferentWritesConflict(InitialRow(g), n, log, j, i);
    }
  }

  /** The SLR(1) guarantee: when the table records no conflict on the cell of
      state `n` and symbol `s`, and no goto is demanded there, the cell is
      empty exactly when no action is demanded on it, and otherwise holds the
      one action every item demanding something on it demands, whatever order
      the items were visited in. */
  lemma CellDeterministic(g: Grammar, states: seq<ItemSet>, trans: Transitions, follow: map<Symbol, set<Symbol>>,
                          table: Table, conflicts: seq<Conflict>, logs: seq<seq<Write>>, n: nat, s: Symbol)
    requires forall k | 0 <= k < |states| :: TableItems(g, states[k])
    requires TableUpTo(g, states, trans, follow, |states|, table, conflicts, logs)
    requires 1 <= n <= |states| && s in Columns(g)
    requires forall c | c in conflicts :: c.state != n || c.symbol != s
    requires forall w | w in Demanded(g, trans, follow, n, states[n - 1]) && w.symbol == s :: Checked(w.action)
    ensures table[n][s] == None <==> forall w | w in Demanded(g, trans, follow, n, states[n - 1]) :: w.symbol != s
    ensures forall w | w in Demanded(g, trans, follow, n, states[n - 1]) && w.symbol == s :: table[n][s] == Some(w.action)
  {
    var log := logs[n - 1];
    assert RowBuilt(g, trans, follow, (n - 1) + 1, states[n - 1], table[(n - 1) + 1], logs[n - 1]);
    CellIsDemanded(g, n, log, s);
    RowConflictsListed(g, logs, n);
    ConflictsWellFormed(InitialRow(g), n, log);
    forall w | w in Written(log) && w.symbol == s ensures table[n][s] == Some(w.action) {
      NoConflictAgrees(g, n, log, s, w, Write(s, table[n][s].value));
    }
  }

  /** The second loop runs after the first: in a built row of a state with
      the item `S' -> S . eof`, the end-of-input cell holds accept, whatever
      the first loop wrote there. */
  lemma AcceptWinsOnEof(g: Grammar, trans: Transitions, follow: map<Symbol, set<Symbol>>, n: nat, I: ItemSet,
                        row: Row, log: seq<Write>)
    requires RowBuilt(g, trans, follow, n, I, row, log) && FinalWrites(g, I) != {}
    ensures row[g.eof] == Some(Accept)
  {
    assert log[|log| - 1] == Write(g.eof, Accept);
    LastWriteWins(InitialRow(g), n, log, g.eof);
  }

  /** When the first loop demands another action on the end-of-input marker
      in a state with `S' -> S . eof`, the second loop's accept overwrites it
      and records a shift/reduce conflict of row `n` whose new action is
      accept. */
  lemma AcceptOverwritesConflict(g: Grammar, trans: Transitions, follow: map<Symbol, set<Symbol>>, n: nat,
                                 I: ItemSet, row: Row, log: seq<Write>, w: Write)
    requires RowBuilt(g, trans, follow, n, I, row, log) && FinalWrites(g, I) != {}
    requires w in FirstWrites(g, trans, follow, n, I) && w.symbol == g.eof && w.action != Accept
    ensures exists c | c in ApplyWrites(InitialRow(g), n, log).1 ::
      c.state == n && c.symbol == g.eof && c.kind == ShiftReduce && c.written == Accept
  {
    var k := |log| - 1;
    assert log[k] == Write(g.eof, Accept);
    assert w in log[..k];
    var i :| 0 <= i < k && log[..k][i] == w;
    DifferentWritesConflict(InitialRow(g), n, log, i, k);
    ConflictsWellFormed(InitialRow(g), n, log);
  }

  /** Each write records at most one conflict. */
  lemma {:induction false} ConflictsAtMostWrites(row: Row, n: nat, ws: seq<Write>)
    requires OnColumns(row, ws)
    ensures |ApplyWrites(row, n, ws).1| <= |ws|
    decreases |ws|
  {
    if |ws| > 0 {
      ConflictsAtMostWrites(row, n, ws[..|ws| - 1]);
    }
  }

  /** A built row records at most one conflict per item and column, and one
      more for the second loop's accept. */
  lemma RowConflictsBounded(g: Grammar, trans: Transitions, follow: map<Symbol, set<Symbol>>, n: nat, I: ItemSet,
                            row: Row, log: seq<Write>)
    requires RowBuilt(g, trans, follow, n, I, row, log)
    ensures |ApplyWrites(InitialRow(g), n, log).1| <= |I| * |Columns(g)| + 1
  {
    ConflictsAtMostWrites(InitialRow(g), n, log);
  }

  // ---------------------------------------------------------------------------
  // The re-check

  /** Lines 445-467: without a table it raises; otherwise it looks, for every
      cell holding a shift or a reduce, for a reduce in a cell of the same
      symbol of the same row. That cell is the cell itself, so a shift never
      meets a reduce and a reduce never meets a different one: the list is
      always empty. */
  method Recheck(table: Table) returns (r: Result<seq<Conflict>, TableError>)
    ensures |table| == 0 <==> r == Failure(NotInitialized)
    ensures |table| > 0 ==> r == Success([])
  {
    if |table| == 0 {
      return Failure(NotInitialized);
    }
    var conflicts: seq<Conflict> := [];
    var states := table.Keys;
    while states != {}
      invariant states <= table.Keys && conflicts == []
      decreases |states|
    {
      var n :| n in states;
      states := states - {n};
      var row := table[n];
      var symbols := row.Keys;
      while symbols != {}
        invariant symbols <= row.Keys && conflicts == []
        decreases |symbols|
      {
        var s :| s in symbols;
        symbols := symbols - {s};
        match row[s] {
          case None =>
          case Some(a) =>
            if a.Shift? {
              var others := row.Keys;
              while others != {}
                invariant others <= row.Keys && conflicts == []
                decreases |others|
              {
                var o :| o in others;
                others := others - {o};
                match row[o] {
                  case None =>
                  case Some(b) =>
                    if b.Reduce? && o == s {
                      conflicts := conflicts + [Conflict(n, s, ShiftReduce, a, b)];
                    }
                }
              }
            }
            if a.Reduce? {
              var others := row.Keys;
              while others != {}
                invariant others <= row.Keys && conflicts == []
                decreases |others|
              {
                var o :| o in others;
                others := others - {o};
                match row[o] {
                  case None =>
                  case Some(b) =>
                    if b.Reduce? && o == s && b != a {
                      conflicts := conflicts + [Conflict(n, s, ReduceReduce, a, b)];
                    }
                }
              }
            }
        }
      }
    }
    r := Success(conflicts);
  }
}
