/** LR(0) items (a production number and a dot position), the closure of a set
    of items (`fechamento`) and the goto of a set of items over a symbol
    (`ir_para`). */
module LR0Items {
  import opened GrammarModel
  import opened SetSteps

  /** The item `(idx_prod, pos_ponto)`. */
  datatype Item = Item(prod: nat, dot: nat)

  /** The production exists and the dot lies within its right side. */
  predicate ValidItem(g: Grammar, it: Item) {
    it.prod < |g.productions| && it.dot <= |g.productions[it.prod].right|
  }

  ghost predicate ValidItems(g: Grammar, s: set<Item>) {
    forall it | it in s :: ValidItem(g, it)
  }

  /** Every valid item of `g`. */
  function AllItems(g: Grammar): set<Item> {
    set i, d | 0 <= i < |g.productions| && 0 <= d <= |g.productions[i].right| :: Item(i, d)
  }

  lemma ValidItemsInAll(g: Grammar, s: set<Item>)
    requires ValidItems(g, s)
    ensures s <= AllItems(g)
  {
    forall it | it in s ensures it in AllItems(g) {
      assert ValidItem(g, it);
    }
  }

  /** `x` is the symbol right after the dot of `it`. */
  predicate Expects(g: Grammar, it: Item, x: Symbol)
    requires ValidItem(g, it)
  {
    it.dot < |g.productions[it.prod].right| && g.productions[it.prod].right[it.dot] == x
  }

  /** The productions the index lists for `b`; a symbol that is not a left side
      has none (the index is a `defaultdict(list)`). */
  function Listed(g: Grammar, b: Symbol): seq<Alternative> {
    if b in g.byLeft then g.byLeft[b] else []
  }

  /** The dot-0 items of a list of productions. */
  function StartItems(alts: seq<Alternative>): set<Item> {
    set k | 0 <= k < |alts| :: Item(alts[k].index, 0)
  }

  /** What one closure step adds for `it`: the dot-0 items of the productions of
      the non-terminal right after the dot, and nothing when the dot is at the end
      or before a symbol that is not a declared non-terminal. */
  function Predicted(g: Grammar, it: Item): set<Item>
    requires ValidItem(g, it)
  {
    var rhs := g.productions[it.prod].right;
    if it.dot < |rhs| && rhs[it.dot] in g.nonterminals then StartItems(Listed(g, rhs[it.dot])) else {}
  }

  /** A set of valid items that contains every item its items predict. */
  ghost predicate Closed(g: Grammar, c: set<Item>) {
    forall it | it in c :: ValidItem(g, it) && Predicted(g, it) <= c
  }

  /** `c` is the closure of `s`: it contains `s`, is closed, and lies inside every
      closed set that contains `s`. */
  ghost predicate IsClosureOf(g: Grammar, s: set<Item>, c: set<Item>) {
    && s <= c
    && Closed(g, c)
    && forall d | s <= d && Closed(g, d) :: c <= d
  }

  /** The items that lie in every closed set holding `s`. */
  ghost function ClosureOf(g: Grammar, s: set<Item>): set<Item> {
    set it | it in AllItems(g) && forall d | s <= d && Closed(g, d) :: it in d
  }

  // ---------------------------------------------------------------------------
  // Properties of the closure

  /** `ClosureOf` is the closure: it holds `s`, is closed and is the least such
      set; and it is the only set with these properties. */
  lemma ClosureOfIsClosure(g: Grammar, s: set<Item>, c: set<Item>)
    requires g.Valid() && ValidItems(g, s)
    ensures IsClosureOf(g, s, ClosureOf(g, s))
    ensures IsClosureOf(g, s, c) ==> c == ClosureOf(g, s)
  {
    var k := ClosureOf(g, s);
    ValidItemsInAll(g, s);
    forall it | it in k ensures ValidItem(g, it) && Predicted(g, it) <= k {
      var rhs := g.productions[it.prod].right;
      if it.dot < |rhs| {
        ListedValid(g, rhs[it.dot]);
      }
      forall q | q in Predicted(g, it) ensures q in k {
        assert ValidItem(g, q);
        ValidItemsInAll(g, {q});
      }
    }
    if IsClosureOf(g, s, c) {
      ClosureUnique(g, s, c, k);
    }
  }

  /** A set has at most one closure. */
  lemma ClosureUnique(g: Grammar, s: set<Item>, c1: set<Item>, c2: set<Item>)
    requires IsClosureOf(g, s, c1) && IsClosureOf(g, s, c2)
    ensures c1 == c2
  {
    assert c1 <= c2;
    assert c2 <= c1;
  }

  /** A closed set is its own closure. */
  lemma ClosedIsOwnClosure(g: Grammar, c: set<Item>)
    requires Closed(g, c)
    ensures IsClosureOf(g, c, c)
  {
  }

  /** Closing twice gives the same set as closing once. */
  lemma ClosureIdempotent(g: Grammar, s: set<Item>, c: set<Item>, c2: set<Item>)
    requires IsClosureOf(g, s, c) && IsClosureOf(g, c, c2)
    ensures c2 == c
  {
    ClosedIsOwnClosure(g, c);
    ClosureUnique(g, c, c, c2);
  }

  /** A larger set has a larger closure. */
  lemma ClosureMonotone(g: Grammar, s: set<Item>, c: set<Item>, t: set<Item>, e: set<Item>)
    requires s <= t && IsClosureOf(g, s, c) && IsClosureOf(g, t, e)
    ensures c <= e
  {
    assert s <= e && Closed(g, e);
  }

  /** The closure adds only dot-0 items of existing productions. */
  lemma ClosureAddsStartItems(g: Grammar, s: set<Item>, c: set<Item>)
    requires IsClosureOf(g, s, c)
    ensures forall it | it in c && it !in s :: it.dot == 0 && it.prod < |g.productions|
  {
    var d := s + set it | it in c && it.dot == 0;
    forall it | it in d ensures ValidItem(g, it) && Predicted(g, it) <= d {
      assert it in c;
      forall q | q in Predicted(g, it) ensures q in d {
        assert q in c && q.dot == 0;
      }
    }
    assert Closed(g, d);
  }

  // ---------------------------------------------------------------------------
  // The methods

  /** The items of a set listed one by one, in the order the set yields them. */
  method Enumerate(s: set<Item>) returns (q: seq<Item>)
    ensures forall k | 0 <= k < |q| :: q[k] in s
    ensures forall it | it in s :: it in q
  {
    q := [];
    var rest := s;
    while rest != {}
      invariant rest <= s
      invariant forall k | 0 <= k < |q| :: q[k] in s
      invariant forall it | it in s && it !in rest :: it in q
      decreases |rest|
    {
      var it :| it in rest;
      q := q + [it];
      rest := rest - {it};
    }
  }

  /** The inner loop of `fechamento` (lines 286-290): each dot-0 item of the
      listed productions that is not yet in the closure is added to it and to the
      end of the queue. */
  method AddStartItems(alts: seq<Alternative>, c: set<Item>, queue: seq<Item>)
    returns (c': set<Item>, queue': seq<Item>)
    ensures c' == c + StartItems(alts)
    ensures |queue| <= |queue'| && queue'[..|queue|] == queue
    ensures forall k | |queue| <= k < |queue'| :: queue'[k] in c' && queue'[k] !in c
    ensures forall it | it in c' && it !in c :: it in queue'
    ensures c' == c ==> queue' == queue
  {
    c' := c;
    queue' := queue;
    for j := 0 to |alts|
      invariant c' == c + StartItems(alts[..j])
      invariant |queue| <= |queue'| && queue'[..|queue|] == queue
      invariant forall k | |queue| <= k < |queue'| :: queue'[k] in c' && queue'[k] !in c
      invariant forall it | it in c' && it !in c :: it in queue'
      invariant c' == c ==> queue' == queue
    {
      var item := Item(alts[j].index, 0);
      assert StartItems(alts[..j + 1]) == StartItems(alts[..j]) + {item} by {
        assert alts[..j + 1][j] == alts[j];
        forall k | 0 <= k < j ensures alts[..j + 1][k] == alts[..j][k] { }
      }
      if item !in c' {
        c' := c' + {item};
        queue' := queue' + [item];
      }
    }
    assert alts[..|alts|] == alts;
  }

  /** The listed productions of a symbol exist. */
  lemma ListedValid(g: Grammar, b: Symbol)
    requires g.Valid()
    ensures forall it | it in StartItems(Listed(g, b)) :: ValidItem(g, it)
  {
    if b in g.byLeft {
      ProductionsOfSpec(g.productions, b);
    }
  }

  /** The state of the worklist of `fechamento` over `items`: the closure so far
      holds the items, is valid and lies in every closed set holding the items;
      the queue holds only items of it, and every item not in the queue has had
      its predictions added. */
  ghost predicate ClosureLoop(g: Grammar, items: set<Item>, c: set<Item>, queue: seq<Item>) {
    && items <= c && ValidItems(g, c)
    && (forall k | 0 <= k < |queue| :: queue[k] in c)
    && (forall it | it in c && it !in queue :: Predicted(g, it) <= c)
    && (forall d | items <= d && Closed(g, d) :: c <= d)
  }

  /** Processing the head of the queue keeps the worklist state. */
  lemma ClosureStep(g: Grammar, items: set<Item>, c: set<Item>, queue: seq<Item>, c': set<Item>, queue': seq<Item>)
    requires g.Valid() && |queue| > 0 && ClosureLoop(g, items, c, queue)
    requires ValidItem(g, queue[0]) && c' == c + Predicted(g, queue[0])
    requires |queue| - 1 <= |queue'| && queue'[..|queue| - 1] == queue[1..]
    requires forall k | |queue| - 1 <= k < |queue'| :: queue'[k] in c' && queue'[k] !in c
    requires forall it | it in c' && it !in c :: it in queue'
    requires c' == c ==> queue' == queue[1..]
    ensures ClosureLoop(g, items, c', queue')
    ensures c' == c ==> |queue'| == |queue| - 1
    ensures c' != c ==> AllItems(g) - c' < AllItems(g) - c
  {
    var it := queue[0];
    var rhs := g.productions[it.prod].right;
    if it.dot < |rhs| {
      ListedValid(g, rhs[it.dot]);
    }
    assert ValidItems(g, c');
    forall d | items <= d && Closed(g, d) ensures c' <= d {
      assert it in d;
    }
    forall k | 0 <= k < |queue| - 1 ensures queue[k + 1] in queue' && queue'[k] in c' {
      assert queue'[k] == queue[k + 1];
    }
    assert forall k | 0 <= k < |queue'| :: queue'[k] in c';
    forall q | q in c' && q !in queue' ensures Predicted(g, q) <= c' {
      assert q in c;
      if q != it {
        assert q !in queue;
      }
    }
    if c' != c {
      ValidItemsInAll(g, c');
      FewerMissing(AllItems(g), c, c');
    }
  }

  /** Growing a subset of a set leaves fewer of its elements outside it. */
  lemma FewerMissing<T>(all: set<T>, c: set<T>, c': set<T>)
    requires c <= c' <= all && c != c'
    ensures all - c' < all - c
  {
    var x :| x in c' && x !in c;
    assert x in all - c && x !in all - c';
  }

  /** The worklist state at the start: the closure so far is the items, all queued. */
  lemma ClosureStart(g: Grammar, items: set<Item>, queue: seq<Item>)
    requires ValidItems(g, items)
    requires forall k | 0 <= k < |queue| :: queue[k] in items
    requires forall it | it in items :: it in queue
    ensures ClosureLoop(g, items, items, queue)
  {
  }

  /** `fechamento` (lines 272-292): a worklist over the items; an item whose dot
      stands before a non-terminal brings in the dot-0 items of that
      non-terminal's productions. The result is the closure of the given items. */
  method Closure(g: Grammar, items: set<Item>) returns (c: set<Item>)
    requires g.Valid() && ValidItems(g, items)
    ensures IsClosureOf(g, items, c)
    ensures c == ClosureOf(g, items)
  {
    c := items;
    var queue := Enumerate(items);
    ClosureStart(g, items, queue);
    while |queue| > 0
      invariant ClosureLoop(g, items, c, queue)
      decreases AllItems(g) - c, |queue|
    {
      var it := queue[0];
      ghost var before, all := c, queue;
      queue := queue[1..];
      var rhs := g.productions[it.prod].right;
      if it.dot < |rhs| && rhs[it.dot] in g.nonterminals {
        c, queue := AddStartItems(Listed(g, rhs[it.dot]), c, queue);
      }
      ClosureStep(g, items, before, all, c, queue);
    }
    ClosureOfIsClosure(g, items, c);
  }

  // ---------------------------------------------------------------------------
  // Goto

  /** The kernel of goto: every item of `s` that expects `x`, with its dot moved
      over `x`. */
  function Advance(g: Grammar, s: set<Item>, x: Symbol): set<Item>
    requires ValidItems(g, s)
  {
    set it | it in s && Expects(g, it, x) :: Item(it.prod, it.dot + 1)
  }

  /** Adding one item to the scanned part adds at most its advanced item. */
  lemma AdvanceAdd(g: Grammar, done: set<Item>, it: Item, x: Symbol)
    requires ValidItems(g, done) && ValidItem(g, it)
    ensures ValidItems(g, done + {it})
    ensures Advance(g, done + {it}, x)
         == Advance(g, done, x) + (if Expects(g, it, x) then {Item(it.prod, it.dot + 1)} else {})
  {
  }

  /** The goto of `s` over `x`: the closure of the kernel. */
  ghost function GotoOf(g: Grammar, s: set<Item>, x: Symbol): set<Item>
    requires ValidItems(g, s)
  {
    ClosureOf(g, Advance(g, s, x))
  }

  /** `ir_para` (lines 294-304): the closure of the kernel. It is empty exactly
      when no item of `s` expects `x`. */
  method Goto(g: Grammar, s: set<Item>, x: Symbol) returns (r: set<Item>)
    requires g.Valid() && ValidItems(g, s)
    ensures r == GotoOf(g, s, x)
    ensures r == {} <==> forall it | it in s :: !Expects(g, it, x)
  {
    var kernel := {};
    var rest := s;
    ghost var done := {};
    while rest != {}
      invariant done + rest == s && ValidItems(g, done)
      invariant kernel == Advance(g, done, x)
      decreases |rest|
    {
      var it :| it in rest;
      AdvanceAdd(g, done, it, x);
      if Expects(g, it, x) {
        kernel := kernel + {Item(it.prod, it.dot + 1)};
      }
      VisitOne(s, rest, done, it, rest - {it}, done + {it});
      rest := rest - {it};
      done := done + {it};
    }
    assert done == s;
    r := Closure(g, kernel);
    GotoEmpty(g, s, x, r);
  }

  /** A goto is empty exactly when no item expects the symbol. */
  lemma GotoEmpty(g: Grammar, s: set<Item>, x: Symbol, r: set<Item>)
    requires ValidItems(g, s) && IsClosureOf(g, Advance(g, s, x), r)
    ensures r == {} <==> forall it | it in s :: !Expects(g, it, x)
  {
    if forall it | it in s :: !Expects(g, it, x) {
      assert Advance(g, s, x) == {};
      assert Closed(g, {});
    } else {
      var it :| it in s && Expects(g, it, x);
      assert Item(it.prod, it.dot + 1) in Advance(g, s, x);
    }
  }
}
