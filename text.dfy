/** The text side of the production lines: Python's `strip`, `split()` and
    `split(sep)`, the right-side tokenizer `tokenizar_producao`, and the splitting
    of one production line `A -> alt1 | alt2 | ...` into productions. */
module ProductionText {
  import opened Results
  import opened GrammarModel

  // ---------------------------------------------------------------------------
  // Python string primitives

  /** The characters for which Python's `str.isspace()` holds. */
  predicate IsSpace(c: char) {
    var n := c as int;
    || 9 <= n <= 13
    || 28 <= n <= 32
    || n == 0x85 || n == 0xA0 || n == 0x1680
    || 0x2000 <= n <= 0x200A
    || n == 0x2028 || n == 0x2029 || n == 0x202F || n == 0x205F || n == 0x3000
  }

  /** The first position at or after `i` that does not hold whitespace. */
  function SkipSpaces(s: string, i: nat): (j: nat)
    requires i <= |s|
    ensures i <= j <= |s|
    decreases |s| - i
  {
    if i < |s| && IsSpace(s[i]) then SkipSpaces(s, i + 1) else i
  }

  /** The end of `s[..j]` once its trailing whitespace is dropped. */
  function TrimEnd(s: string, j: nat): (k: nat)
    requires j <= |s|
    ensures k <= j
  {
    if j > 0 && IsSpace(s[j - 1]) then TrimEnd(s, j - 1) else j
  }

  /** `str.strip()` with no argument. */
  function Strip(s: string): string {
    var lo := SkipSpaces(s, 0);
    var hi := TrimEnd(s, |s|);
    if hi <= lo then [] else s[lo..hi]
  }

  lemma {:induction false} SkipSpacesSpec(s: string, i: nat)
    requires i <= |s|
    ensures forall m | i <= m < SkipSpaces(s, i) :: IsSpace(s[m])
    ensures SkipSpaces(s, i) == |s| || !IsSpace(s[SkipSpaces(s, i)])
    decreases |s| - i
  {
    if i < |s| && IsSpace(s[i]) {
      SkipSpacesSpec(s, i + 1);
    }
  }

  lemma {:induction false} TrimEndSpec(s: string, j: nat)
    requires j <= |s|
    ensures forall m | TrimEnd(s, j) <= m < j :: IsSpace(s[m])
    ensures TrimEnd(s, j) == 0 || !IsSpace(s[TrimEnd(s, j) - 1])
  {
    if j > 0 && IsSpace(s[j - 1]) {
      TrimEndSpec(s, j - 1);
    }
  }

  /** `strip` removes exactly the leading and trailing whitespace: the result is
      a slice of the input, everything cut away is whitespace, and the result
      neither starts nor ends with whitespace. */
  lemma StripSpec(s: string)
    ensures exists lo, hi | 0 <= lo <= hi <= |s| ::
      && Strip(s) == s[lo..hi]
      && (forall m | 0 <= m < lo :: IsSpace(s[m]))
      && (forall m | hi <= m < |s| :: IsSpace(s[m]))
    ensures Strip(s) != [] ==> !IsSpace(Strip(s)[0]) && !IsSpace(Strip(s)[|Strip(s)| - 1])
  {
    var lo := SkipSpaces(s, 0);
    var hi := TrimEnd(s, |s|);
    SkipSpacesSpec(s, 0);
    TrimEndSpec(s, |s|);
    if hi <= lo {
      // everything is whitespace: cut it all on the left
      assert lo == |s|;
      assert Strip(s) == s[lo..lo];
    } else {
      assert Strip(s) == s[lo..hi];
    }
  }

  /** The concatenation of a list of strings (`''.join`). */
  function Concat(ts: seq<string>): string {
    if |ts| == 0 then [] else ts[0] + Concat(ts[1..])
  }

  /** Length of the longest prefix of `s` holding no whitespace. */
  function WordLength(s: string): (k: nat)
    ensures k <= |s|
    ensures forall j | 0 <= j < k :: !IsSpace(s[j])
    ensures k == |s| || IsSpace(s[k])
  {
    if |s| == 0 || IsSpace(s[0]) then 0 else 1 + WordLength(s[1..])
  }

  /** `str.split()` with no argument: the maximal runs of non-whitespace. */
  function SplitWhitespace(s: string): seq<string>
    decreases |s|
  {
    if |s| == 0 then []
    else if IsSpace(s[0]) then SplitWhitespace(s[1..])
    else
      var k := WordLength(s);
      [s[..k]] + SplitWhitespace(s[k..])
  }

  /** `s` with every whitespace character removed. */
  function WithoutSpaces(s: string): string {
    if |s| == 0 then [] else (if IsSpace(s[0]) then [] else [s[0]]) + WithoutSpaces(s[1..])
  }

  /** `str.split()` loses only the whitespace, and gives non-empty words without
      whitespace. */
  lemma {:induction false} SplitWhitespaceSpec(s: string)
    ensures Concat(SplitWhitespace(s)) == WithoutSpaces(s)
    ensures forall k | 0 <= k < |SplitWhitespace(s)| ::
      SplitWhitespace(s)[k] != [] && forall c | c in SplitWhitespace(s)[k] :: !IsSpace(c)
    decreases |s|
  {
    if |s| > 0 {
      if IsSpace(s[0]) {
        SplitWhitespaceSpec(s[1..]);
      } else {
        var k := WordLength(s);
        SplitWhitespaceSpec(s[k..]);
        WithoutSpacesOfWord(s[..k], s[k..]);
        assert s[..k] + s[k..] == s;
      }
    }
  }

  lemma {:induction false} WithoutSpacesOfWord(w: string, rest: string)
    requires forall c | c in w :: !IsSpace(c)
    ensures WithoutSpaces(w + rest) == w + WithoutSpaces(rest)
    decreases |w|
  {
    if |w| > 0 {
      assert w[0] in w;
      assert (w + rest)[0] == w[0];
      assert (w + rest)[1..] == w[1..] + rest;
      WithoutSpacesOfWord(w[1..], rest);
      assert w == [w[0]] + w[1..];
    } else {
      assert w + rest == rest;
    }
  }

  // ---------------------------------------------------------------------------
  // The right-side tokenizer (`tokenizar_producao`)

  /** A character that is, by itself, one of the declared terminals. */
  predicate IsTerminalChar(c: char, terminals: seq<Symbol>) {
    [c] in terminals
  }

  /** Length of the longest prefix of `s` holding no terminal character. */
  function RunLength(s: string, terminals: seq<Symbol>): (k: nat)
    ensures k <= |s|
    ensures forall j | 0 <= j < k :: !IsTerminalChar(s[j], terminals)
    ensures k == |s| || IsTerminalChar(s[k], terminals)
  {
    if |s| == 0 || IsTerminalChar(s[0], terminals) then 0 else 1 + RunLength(s[1..], terminals)
  }

  /** Length of the token at the start of a non-empty `s`: one for a terminal
      character, otherwise the whole run up to the next terminal character. */
  function HeadLength(s: string, terminals: seq<Symbol>): (k: nat)
    requires |s| > 0
    ensures 0 < k <= |s|
  {
    if IsTerminalChar(s[0], terminals) then 1 else RunLength(s, terminals)
  }

  /** The segmentation used when the right side holds no space: each terminal
      character is a token of its own, and each maximal run of other characters
      is one token. */
  function Segment(s: string, terminals: seq<Symbol>): seq<string>
    decreases |s|
  {
    if |s| == 0 then []
    else
      var k := HeadLength(s, terminals);
      [s[..k]] + Segment(s[k..], terminals)
  }

  /** The markers that denote an empty (epsilon) alternative. */
  predicate IsEmptyMarker(s: string) {
    s == [] || s == "vazio" || s == "epsilon"
  }

  /** What `tokenizar_producao(right, terminals)` returns. */
  function Tokens(right: string, terminals: seq<Symbol>): seq<string> {
    if right == [] then []
    else
      var s := Strip(right);
      if IsEmptyMarker(s) then []
      else if ' ' in s then SplitWhitespace(s)
      else Segment(s, terminals)
  }

  /** A token of the no-space branch: a single terminal character, or a non-empty
      run free of terminal characters. */
  predicate WellShapedToken(t: string, terminals: seq<Symbol>) {
    || (|t| == 1 && IsTerminalChar(t[0], terminals))
    || (t != [] && forall c | c in t :: !IsTerminalChar(c, terminals))
  }

  /** A run token (one without terminal characters). */
  predicate IsRun(t: string, terminals: seq<Symbol>) {
    t != [] && forall c | c in t :: !IsTerminalChar(c, terminals)
  }

  /** The segmentation loses nothing: its tokens concatenate back to the input. */
  lemma {:induction false} SegmentConcat(s: string, terminals: seq<Symbol>)
    ensures Concat(Segment(s, terminals)) == s
    decreases |s|
  {
    if |s| > 0 {
      var k := HeadLength(s, terminals);
      SegmentConcat(s[k..], terminals);
      ConcatCons(s[..k], Segment(s[k..], terminals));
      assert s[..k] + s[k..] == s;
    }
  }

  lemma ConcatCons(t: string, ts: seq<string>)
    ensures Concat([t] + ts) == t + Concat(ts)
  {
    assert ([t] + ts)[1..] == ts;
  }

  /** The first token of a non-empty segmentation. */
  lemma SegmentHead(s: string, terminals: seq<Symbol>)
    requires |s| > 0
    ensures |Segment(s, terminals)| > 0
    ensures IsTerminalChar(s[0], terminals) ==> Segment(s, terminals)[0] == [s[0]]
    ensures !IsTerminalChar(s[0], terminals) ==> IsRun(Segment(s, terminals)[0], terminals)
  {
    if !IsTerminalChar(s[0], terminals) {
      var k := RunLength(s, terminals);
      var t := s[..k];
      forall c | c in t ensures !IsTerminalChar(c, terminals) {
        var m :| 0 <= m < k && t[m] == c;
      }
    }
  }

  /** Every token is well shaped, and two run tokens are never adjacent (runs are
      maximal). */
  lemma {:induction false} SegmentShape(s: string, terminals: seq<Symbol>)
    ensures forall k | 0 <= k < |Segment(s, terminals)| :: WellShapedToken(Segment(s, terminals)[k], terminals)
    ensures forall k | 0 <= k < |Segment(s, terminals)| - 1 ::
      !(IsRun(Segment(s, terminals)[k], terminals) && IsRun(Segment(s, terminals)[k + 1], terminals))
    decreases |s|
  {
    if |s| > 0 {
      SegmentHead(s, terminals);
      var r := Segment(s, terminals);
      var rest := if IsTerminalChar(s[0], terminals) then s[1..] else s[RunLength(s, terminals)..];
      SegmentShape(rest, terminals);
      var tail := Segment(rest, terminals);
      assert r == [r[0]] + tail;
      if !IsTerminalChar(s[0], terminals) && |tail| > 0 {
        // the token after a run starts with a terminal character
        SegmentHead(rest, terminals);
        assert !IsRun(tail[0], terminals) by {
          assert tail[0][0] == rest[0];
        }
      }
      forall j | 0 <= j < |r| ensures WellShapedToken(r[j], terminals) {
        if j > 0 {
          assert r[j] == tail[j - 1];
        }
      }
      forall j | 0 <= j < |r| - 1
        ensures !(IsRun(r[j], terminals) && IsRun(r[j + 1], terminals))
      {
        if j > 0 {
          assert r[j] == tail[j - 1];
          assert r[j + 1] == tail[j];
        }
      }
    }
  }

  /** A run followed by the end or by a terminal character is exactly one token. */
  lemma {:induction false} SegmentAfterRun(run: string, rest: string, terminals: seq<Symbol>)
    requires IsRun(run, terminals)
    requires rest == [] || IsTerminalChar(rest[0], terminals)
    ensures Segment(run + rest, terminals) == [run] + Segment(rest, terminals)
  {
    var s := run + rest;
    RunLengthOfRun(run, rest, terminals);
    assert s[..|run|] == run;
    assert s[|run|..] == rest;
  }

  lemma {:induction false} RunLengthOfRun(run: string, rest: string, terminals: seq<Symbol>)
    requires forall c | c in run :: !IsTerminalChar(c, terminals)
    requires rest == [] || IsTerminalChar(rest[0], terminals)
    ensures RunLength(run + rest, terminals) == |run|
    decreases |run|
  {
    if |run| > 0 {
      assert (run + rest)[1..] == run[1..] + rest;
      RunLengthOfRun(run[1..], rest, terminals);
    } else {
      assert run + rest == rest;
    }
  }

  /** The state of the character loop after `i` characters: the finished tokens
      followed by the segmentation of the pending run and the unread characters
      give the segmentation of the whole input. */
  ghost predicate SegmentLoopState(s: string, i: nat, tokens: seq<string>, current: string, terminals: seq<Symbol>) {
    && i <= |s|
    && (forall x | x in current :: !IsTerminalChar(x, terminals))
    && Segment(s, terminals) == tokens + Segment(current + s[i..], terminals)
  }

  /** A pending run followed by a terminal character: the run (if any) is one
      token, the character the next. */
  lemma SegmentFlush(current: string, tail: string, terminals: seq<Symbol>)
    requires |tail| > 0 && IsTerminalChar(tail[0], terminals)
    requires forall x | x in current :: !IsTerminalChar(x, terminals)
    ensures Segment(current + tail, terminals)
         == (if current == [] then [[tail[0]]] else [current, [tail[0]]]) + Segment(tail[1..], terminals)
  {
    assert Segment(tail, terminals) == [[tail[0]]] + Segment(tail[1..], terminals) by {
      assert tail[..1] == [tail[0]];
    }
    if current == [] {
      assert current + tail == tail;
    } else {
      SegmentAfterRun(current, tail, terminals);
    }
  }

  /** A terminal character flushes the pending run (if any) and is a token of its own. */
  lemma SegmentTerminalStep(s: string, i: nat, tokens: seq<string>, current: string, terminals: seq<Symbol>)
    requires SegmentLoopState(s, i, tokens, current, terminals)
    requires i < |s| && IsTerminalChar(s[i], terminals)
    ensures SegmentLoopState(s, i + 1, tokens + (if current == [] then [[s[i]]] else [current, [s[i]]]), [], terminals)
  {
    var tail := s[i..];
    assert tail[1..] == s[i + 1..];
    SegmentFlush(current, tail, terminals);
    var flushed := if current == [] then [[s[i]]] else [current, [s[i]]];
    var rest := Segment(s[i + 1..], terminals);
    assert tokens + (flushed + rest) == (tokens + flushed) + rest;
    assert [] + s[i + 1..] == s[i + 1..];
  }

  /** Any other character extends the pending run. */
  lemma SegmentRunStep(s: string, i: nat, tokens: seq<string>, current: string, terminals: seq<Symbol>)
    requires SegmentLoopState(s, i, tokens, current, terminals)
    requires i < |s| && !IsTerminalChar(s[i], terminals)
    ensures SegmentLoopState(s, i + 1, tokens, current + [s[i]], terminals)
  {
    assert current + s[i..] == (current + [s[i]]) + s[i + 1..];
  }

  /** At the end of the input the pending run, if any, is the last token. */
  lemma SegmentLoopEnd(s: string, tokens: seq<string>, current: string, terminals: seq<Symbol>)
    requires SegmentLoopState(s, |s|, tokens, current, terminals)
    ensures Segment(s, terminals) == tokens + (if current == [] then [] else [current])
  {
    assert current + s[|s|..] == current;
    if current != [] {
      SegmentAfterRun(current, [], terminals);
      assert current + [] == current;
    }
  }

  /** The character loop of `tokenizar_producao` (lines 66-86): a pending token is
      flushed before each terminal character and at the end. */
  method SegmentChars(s: string, terminals: seq<Symbol>) returns (tokens: seq<string>)
    ensures tokens == Segment(s, terminals)
  {
    tokens := [];
    var current := "";
    var i := 0;
    assert current + s[i..] == s;
    while i < |s|
      invariant SegmentLoopState(s, i, tokens, current, terminals)
    {
      var c := s[i];
      if IsTerminalChar(c, terminals) {
        SegmentTerminalStep(s, i, tokens, current, terminals);
        tokens := tokens + (if current == [] then [[c]] else [current, [c]]);
        current := "";
      } else {
        SegmentRunStep(s, i, tokens, current, terminals);
        current := current + [c];
      }
      i := i + 1;
    }
    SegmentLoopEnd(s, tokens, current, terminals);
    if current != [] {
      tokens := tokens + [current];
    }
  }

  /** `tokenizar_producao`: nothing for an empty marker, the `split()` words when
      the stripped right side holds a space, the character segmentation otherwise. */
  method TokenizeRight(right: string, terminals: seq<Symbol>) returns (tokens: seq<string>)
    ensures tokens == Tokens(right, terminals)
  {
    if right == [] {
      return [];
    }
    var s := Strip(right);
    if IsEmptyMarker(s) {
      return [];
    }
    if ' ' in s {
      return SplitWhitespace(s);
    }
    tokens := SegmentChars(s, terminals);
  }

  /** The tokenizer's promises: the empty markers give no token; with a space the
      words of `split()`; without one, tokens that concatenate back to the stripped
      right side, none empty, each terminal character alone, runs maximal. */
  lemma TokensSpec(right: string, terminals: seq<Symbol>)
    ensures IsEmptyMarker(Strip(right)) ==> Tokens(right, terminals) == []
    ensures !IsEmptyMarker(Strip(right)) && ' ' in Strip(right) ==>
      && Concat(Tokens(right, terminals)) == WithoutSpaces(Strip(right))
      && forall k | 0 <= k < |Tokens(right, terminals)| :: Tokens(right, terminals)[k] != []
    ensures !IsEmptyMarker(Strip(right)) && ' ' !in Strip(right) ==>
      && Concat(Tokens(right, terminals)) == Strip(right)
      && (forall k | 0 <= k < |Tokens(right, terminals)| :: WellShapedToken(Tokens(right, terminals)[k], terminals))
      && (forall k | 0 <= k < |Tokens(right, terminals)| - 1 ::
            !(IsRun(Tokens(right, terminals)[k], terminals) && IsRun(Tokens(right, terminals)[k + 1], terminals)))
  {
    var s := Strip(right);
    if right == [] {
      assert s == [];
    } else if !IsEmptyMarker(s) {
      if ' ' in s {
        SplitWhitespaceSpec(s);
      } else {
        SegmentConcat(s, terminals);
        SegmentShape(s, terminals);
      }
    }
  }

  // ---------------------------------------------------------------------------
  // Splitting one production line

  predicate ArrowAt(s: string, k: nat) {
    k + 2 <= |s| && s[k] == '-' && s[k + 1] == '>'
  }

  /** First position of `->` in `s` at or after `from`, none only when there is none. */
  function FindArrow(s: string, from: nat): (r: Option<nat>)
    ensures r.Some? ==> from <= r.value && ArrowAt(s, r.value)
    ensures r.Some? ==> forall j | from <= j < r.value :: !ArrowAt(s, j)
    ensures r.None? ==> forall j | from <= j :: !ArrowAt(s, j)
    decreases |s| - from
  {
    if from + 2 > |s| then None
    else if s[from] == '-' && s[from + 1] == '>' then Some(from)
    else FindArrow(s, from + 1)
  }

  /** `str.split(sep)`: the pieces between separators, empty pieces included. */
  function SplitOn(s: string, sep: char): (parts: seq<string>)
    ensures |parts| >= 1
  {
    if |s| == 0 then [[]]
    else
      var rest := SplitOn(s[1..], sep);
      if s[0] == sep then [[]] + rest
      else [[s[0]] + rest[0]] + rest[1..]
  }

  /** `sep.join(parts)`. */
  function JoinWith(parts: seq<string>, sep: char): string
    requires |parts| >= 1
  {
    if |parts| == 1 then parts[0] else parts[0] + [sep] + JoinWith(parts[1..], sep)
  }

  /** Splitting on a separator and joining back gives the input; no piece holds
      the separator. */
  lemma {:induction false} SplitOnJoin(s: string, sep: char)
    ensures JoinWith(SplitOn(s, sep), sep) == s
    ensures forall k | 0 <= k < |SplitOn(s, sep)| :: sep !in SplitOn(s, sep)[k]
  {
    if |s| > 0 {
      SplitOnJoin(s[1..], sep);
      var rest := SplitOn(s[1..], sep);
      if s[0] != sep {
        if |rest| > 1 {
          assert ([s[0]] + rest[0]) + [sep] + JoinWith(rest[1..], sep)
              == [s[0]] + (rest[0] + [sep] + JoinWith(rest[1..], sep));
        }
        assert [s[0]] + s[1..] == s;
        var r := SplitOn(s, sep);
        forall k | 0 <= k < |r| ensures sep !in r[k] {
          if k > 0 {
            assert r[k] == rest[k];
          }
        }
      } else {
        assert SplitOn(s, sep)[1..] == rest;
      }
    }
  }

  /** The quotes removed around a token (lines 152-154); a lone quote becomes empty. */
  function Unquote(t: string): string {
    if |t| >= 1 && ((t[0] == '"' && t[|t| - 1] == '"') || (t[0] == '\'' && t[|t| - 1] == '\'')) then
      (if |t| >= 2 then t[1..|t| - 1] else [])
    else t
  }

  /** The tokens with their quotes removed, one for one. */
  function UnquoteAll(tokens: seq<string>): seq<Symbol> {
    if |tokens| == 0 then []
    else UnquoteAll(tokens[..|tokens| - 1]) + [Unquote(tokens[|tokens| - 1])]
  }

  lemma {:induction false} UnquoteAllSpec(tokens: seq<string>)
    ensures |UnquoteAll(tokens)| == |tokens|
    ensures forall k | 0 <= k < |tokens| :: UnquoteAll(tokens)[k] == Unquote(tokens[k])
  {
    if |tokens| > 0 {
      var init := tokens[..|tokens| - 1];
      UnquoteAllSpec(init);
      forall k | 0 <= k < |init| ensures init[k] == tokens[k] { }
    }
  }

  /** The right side one alternative of a production line stands for. */
  function AlternativeRight(alt: string, terminals: seq<Symbol>): seq<Symbol> {
    var a := Strip(alt);
    if IsEmptyMarker(a) then [] else UnquoteAll(Tokens(a, terminals))
  }

  datatype LineError = MissingArrow(line: string) | EmptyLeftSide(line: string)

  /** The text left of the first arrow, and the text right of it. */
  function LeftText(line: string, k: nat): string
    requires ArrowAt(line, k)
  {
    Strip(line[..k])
  }

  function RightText(line: string, k: nat): string
    requires ArrowAt(line, k)
  {
    Strip(line[k + 2..])
  }

  /** The quote-stripping loop over the tokens (lines 151-155). */
  method UnquoteTokens(tokens: seq<string>) returns (right: seq<Symbol>)
    ensures right == UnquoteAll(tokens)
  {
    right := [];
    var m := 0;
    while m < |tokens|
      invariant 0 <= m <= |tokens|
      invariant right == UnquoteAll(tokens[..m])
    {
      assert tokens[..m + 1][..m] == tokens[..m];
      right := right + [Unquote(tokens[m])];
      m := m + 1;
    }
    assert tokens[..m] == tokens;
  }

  /** The right side of one alternative (lines 143-155): empty for an empty
      marker, otherwise the tokens with their quotes removed. */
  method AlternativeRightSide(alt: string, terminals: seq<Symbol>) returns (right: seq<Symbol>)
    ensures right == AlternativeRight(alt, terminals)
  {
    var a := Strip(alt);
    if IsEmptyMarker(a) {
      return [];
    }
    var tokens := TokenizeRight(a, terminals);
    right := UnquoteTokens(tokens);
  }

  /** One production line `A -> alt1 | ... | altn` (lines 130-157): an error without
      an arrow or with an empty left side; otherwise one production per
      `|`-separated alternative, in order, each with the left text before the first
      arrow, empty alternatives and `vazio`/`epsilon` giving an empty right side. */
  method SplitProductionLine(line: string, terminals: seq<Symbol>)
    returns (r: Result<seq<Production>, LineError>)
    ensures r == LineResult(line, terminals)
  {
    var arrow := FindArrow(line, 0);
    if arrow.None? {
      return Failure(MissingArrow(line));
    }
    var k := arrow.value;
    var left := Strip(line[..k]);
    var right := Strip(line[k + 2..]);
    if left == [] {
      return Failure(EmptyLeftSide(line));
    }
    var alternatives := SplitOn(right, '|');
    var prods := AlternativeProductions(left, alternatives, terminals);
    return Success(prods);
  }

  /** The loop over the `|`-separated alternatives (lines 142-157). */
  method AlternativeProductions(left: Symbol, alternatives: seq<string>, terminals: seq<Symbol>)
    returns (prods: seq<Production>)
    ensures prods == LineProductions(left, alternatives, terminals)
  {
    prods := [];
    ghost var rights: seq<seq<Symbol>> := [];
    var j := 0;
    while j < |alternatives|
      invariant 0 <= j <= |alternatives|
      invariant prods == WithLeft(left, rights)
      invariant rights == AlternativeRights(alternatives[..j], terminals)
    {
      var rhs := AlternativeRightSide(alternatives[j], terminals);
      assert alternatives[..j + 1][..j] == alternatives[..j];
      rights := rights + [rhs];
      prods := prods + [Production(left, rhs)];
      j := j + 1;
    }
    assert alternatives[..j] == alternatives;
  }

  /** The right side of each alternative, in order. */
  function AlternativeRights(alternatives: seq<string>, terminals: seq<Symbol>): (rights: seq<seq<Symbol>>)
    ensures |rights| == |alternatives|
    ensures forall j | 0 <= j < |alternatives| :: rights[j] == AlternativeRight(alternatives[j], terminals)
  {
    if |alternatives| == 0 then []
    else
      var last := |alternatives| - 1;
      assert forall j | 0 <= j < last :: alternatives[..last][j] == alternatives[j];
      AlternativeRights(alternatives[..last], terminals) + [AlternativeRight(alternatives[last], terminals)]
  }

  /** One production with the given left side per right side, in order. */
  function WithLeft(left: Symbol, rights: seq<seq<Symbol>>): (r: seq<Production>)
    ensures |r| == |rights|
    ensures forall j | 0 <= j < |r| :: r[j] == Production(left, rights[j])
  {
    if |rights| == 0 then [] else WithLeft(left, rights[..|rights| - 1]) + [Production(left, rights[|rights| - 1])]
  }

  /** The productions of one line: its left text with each alternative's right side. */
  function LineProductions(left: Symbol, alternatives: seq<string>, terminals: seq<Symbol>): seq<Production> {
    WithLeft(left, AlternativeRights(alternatives, terminals))
  }

  /** What lines 128-157 make of one production line: an error without an
      arrow or with an empty left side, otherwise its productions. */
  function LineResult(line: string, terminals: seq<Symbol>): Result<seq<Production>, LineError> {
    match FindArrow(line, 0)
    case None => Failure(MissingArrow(line))
    case Some(k) =>
      if LeftText(line, k) == [] then Failure(EmptyLeftSide(line))
      else Success(LineProductions(LeftText(line, k), SplitOn(RightText(line, k), '|'), terminals))
  }
}
