/** The grammar of patterns as a plain recursive-descent parse, and the folding of empty
    alternatives, which keeps the language of a tree. Reference for src/cregex_parse.c. */
module CregexGrammar {
  import opened Wrappers
  import opened Cregex
  import opened CregexSemantics

  /** `end` is the offset after the last character read, the terminator included. `Bad` is a
      pattern that is rejected; `Beyond` is one whose final escape makes the parser read past the
      terminator. */
  datatype Parse = Done(end: nat, tree: Node) | Bad | Beyond

  // ----- Intervals -----

  predicate IsDigit(c: char)
  {
    '0' <= c <= '9'
  }

  /** The number whose digits start at `i`, `acc` being the value of those before. */
  function Digits(p: string, i: nat, acc: nat): (r: (nat, nat))
    requires i <= |p|
    ensures i <= r.1 <= |p| && !IsDigit(CharAt(p, r.1))
    decreases |p| - i
  {
    if i < |p| && IsDigit(p[i]) then Digits(p, i + 1, acc * 10 + (p[i] as int - '0' as int)) else (acc, i)
  }

  datatype Bounds = Bounds(nmin: nat, nmax: int, end: nat)

  /** The interval after an opening brace, if there is one. */
  function Interval(p: string, i: nat): (r: Option<Bounds>)
    requires i <= |p|
    ensures r.Some? ==> i < r.value.end <= |p| && (r.value.nmax == -1 || r.value.nmin <= r.value.nmax)
  {
    var (nmin, j) := Digits(p, i, 0);
    if CharAt(p, j) == ',' then
      if CharAt(p, i) != ',' && CharAt(p, j + 1) == '}' then
        Some(Bounds(nmin, -1, j + 2))
      else
        var (nmax, k) := Digits(p, j + 1, 0);
        if CharAt(p, k - 1) == ',' || CharAt(p, k) != '}' || nmax < nmin then None
        else Some(Bounds(nmin, nmax, k + 1))
    else if CharAt(p, i) != '}' && CharAt(p, j) == '}' then
      Some(Bounds(nmin, nmin, j + 1))
    else
      None
  }

  // ----- Patterns -----

  /** Consecutive items, grouped to the right. */
  function Concat(items: seq<Node>): Node
  {
    if items == [] then Epsilon
    else if |items| == 1 then items[0]
    else Concatenation(items[0], Concat(items[1..]))
  }

  /** The last item, put under a quantifier. A question mark that follows makes it lazy. */
  function Quantify(p: string, i: nat, items: seq<Node>, nmin: nat, nmax: int): (r: (nat, seq<Node>))
    requires i <= |p| && items != []
    ensures i <= r.0 <= |p| && |r.1| == |items|
  {
    var n := |items| - 1;
    var lazy := CharAt(p, i) == '?';
    (if lazy then i + 1 else i, items[..n] + [Quantifier(nmin, nmax, !lazy, items[n])])
  }

  /** The node of a class whose text starts at `i`, after its bracket. */
  function ClassNode(p: string, i: nat): (r: Parse)
    requires SevenBit(p) && i <= |p|
    ensures r.Done? ==> i < r.end <= |p|
  {
    var negated := CharAt(p, i) == '^';
    var from := if negated then i + 1 else i;
    match ClassScan(p[from..], 0, [])
    case Closed(len, _) => Done(from + len + 1, CharacterClass(negated, p[from..], len))
    case Overrun => Beyond
    case _ => Bad
  }

  /** The alternatives from `i` up to a closing parenthesis or the terminator, `items` being the
      part of the first alternative that was already read. */
  function ParseFrom(p: string, i: nat, depth: nat, items: seq<Node>): (r: Parse)
    requires SevenBit(p) && i <= |p|
    ensures r.Done? ==> i < r.end <= |p| + 1 && (depth > 0 ==> r.end <= |p|)
    decreases |p| - i
  {
    if i == |p| then
      if depth == 0 then Done(i + 1, Concat(items)) else Bad
    else if p[i] == ')' then
      if depth > 0 then Done(i + 1, Concat(items)) else Bad
    else if p[i] == '|' then
      var r := ParseFrom(p, i + 1, depth, []);
      if r.Done? then Done(r.end, Alternation(Concat(items), r.tree)) else r
    else if p[i] == '(' then
      var r := ParseFrom(p, i + 1, depth + 1, []);
      if r.Done? then ParseFrom(p, r.end, depth, items + [Capture(r.tree)]) else r
    else if p[i] == '[' then
      var r := ClassNode(p, i + 1);
      if r.Done? then ParseFrom(p, r.end, depth, items + [r.tree]) else r
    else if p[i] == '\\' && i + 1 == |p| then
      Beyond
    else
      var r := Item(p, i, items);
      ParseFrom(p, r.0, depth, r.1)
  }

  /** A character, a wildcard, an anchor or a quantifier: the items after reading it. A quantifier
      with nothing to apply to is an ordinary character. */
  function Item(p: string, i: nat, items: seq<Node>): (r: (nat, seq<Node>))
    requires i < |p| && (p[i] == '\\' ==> i + 1 < |p|)
    ensures i < r.0 <= |p|
  {
    var c := p[i];
    if c == '\\' then (i + 2, items + [Character(p[i + 1])])
    else if c == '.' then (i + 1, items + [AnyCharacter])
    else if c == '^' then (i + 1, items + [AnchorBegin])
    else if c == '$' then (i + 1, items + [AnchorEnd])
    else if items != [] && c == '?' then Quantify(p, i + 1, items, 0, 1)
    else if items != [] && c == '*' then Quantify(p, i + 1, items, 0, -1)
    else if items != [] && c == '+' then Quantify(p, i + 1, items, 1, -1)
    else if items != [] && c == '{' && Interval(p, i + 1).Some? then
      var b := Interval(p, i + 1).value;
      Quantify(p, b.end, items, b.nmin, b.nmax)
    else (i + 1, items + [Character(c)])
  }

  // ----- Folding of empty alternatives -----

  /** An alternation one side of which is empty is made optional. */
  function FoldAlternation(left: Node, right: Node): Node
  {
    if left.Epsilon? && right.Epsilon? then Epsilon
    else if left.Epsilon? then Quantifier(0, 1, true, right)
    else if right.Epsilon? then Quantifier(0, 1, true, left)
    else Alternation(left, right)
  }

  function Fold(n: Node): Node
  {
    match n
    case Concatenation(left, right) => Concatenation(Fold(left), Fold(right))
    case Alternation(left, right) => FoldAlternation(Fold(left), Fold(right))
    case Quantifier(nmin, nmax, greedy, q) => Quantifier(nmin, nmax, greedy, Fold(q))
    case Capture(q) => Capture(Fold(q))
    case _ => n
  }

  lemma {:induction false} FoldWellFormed(n: Node)
    requires WellFormed(n)
    ensures WellFormed(Fold(n))
  {
    match n
    case Concatenation(left, right) => FoldWellFormed(left); FoldWellFormed(right);
    case Alternation(left, right) => FoldWellFormed(left); FoldWellFormed(right);
    case Quantifier(_, _, _, q) => FoldWellFormed(q);
    case Capture(q) => FoldWellFormed(q);
    case _ =>
  }

  /** Two trees match the same spans of a subject. */
  ghost predicate SameLanguage(a: Node, b: Node, s: string)
    requires WellFormed(a) && WellFormed(b)
  {
    forall i: nat, j: nat :: Language(a, s)(i, j) == Language(b, s)(i, j)
  }

  lemma OptionalLanguage(n: Node, s: string)
    requires WellFormed(n)
    ensures
      var opt := Quantifier(0, 1, true, n);
      WellFormed(opt) && forall i: nat, j: nat :: Language(opt, s)(i, j) == (i == j || Language(n, s)(i, j))
  {
    var opt := Quantifier(0, 1, true, n);
    LanguageParts(opt, s);
    forall i: nat, j: nat ensures Language(opt, s)(i, j) == (i == j || Language(n, s)(i, j)) {
      RepeatsOnce(Language(n, s), i, j);
      assert Repeats(Language(n, s), i, j, 0) == (i == j);
    }
  }

  lemma FoldAlternationLanguage(left: Node, right: Node, s: string)
    requires WellFormed(left) && WellFormed(right)
    ensures WellFormed(FoldAlternation(left, right)) && WellFormed(Alternation(left, right))
    ensures SameLanguage(FoldAlternation(left, right), Alternation(left, right), s)
  {
    var alt := Alternation(left, right);
    assert WellFormed(alt);
    LanguageParts(alt, s);
    assert WellFormed(Epsilon);
    assert forall i: nat, j: nat :: Language(Epsilon, s)(i, j) == (i == j);
    if left.Epsilon? && !right.Epsilon? {
      OptionalLanguage(right, s);
    } else if right.Epsilon? && !left.Epsilon? {
      OptionalLanguage(left, s);
    }
  }

  lemma {:induction false} RepeatsSame(a: Spans, b: Spans, i: nat, j: nat, k: nat)
    requires forall i: nat, j: nat :: a(i, j) == b(i, j)
    ensures Repeats(a, i, j, k) == Repeats(b, i, j, k)
    decreases k
  {
    if k > 0 {
      var h := k - 1;
      forall m: nat ensures Repeats(a, i, m, h) == Repeats(b, i, m, h) {
        RepeatsSame(a, b, i, m, h);
      }
    }
  }

  /** Trees whose parts have the same languages have the same language. */
  lemma CongruentLanguage(a: Node, b: Node, s: string)
    requires WellFormed(a) && WellFormed(b)
    requires || (&& a.Concatenation? && b.Concatenation?
                 && SameLanguage(a.left, b.left, s) && SameLanguage(a.right, b.right, s))
             || (&& a.Alternation? && b.Alternation?
                 && SameLanguage(a.left, b.left, s) && SameLanguage(a.right, b.right, s))
             || (a.Capture? && b.Capture? && SameLanguage(a.captured, b.captured, s))
             || (a.Quantifier? && b.Quantifier? && a.nmin == b.nmin && a.nmax == b.nmax
                 && SameLanguage(a.quantified, b.quantified, s))
    ensures SameLanguage(a, b, s)
  {
    LanguageParts(a, s);
    LanguageParts(b, s);
    if a.Quantifier? {
      var x, y := Language(a.quantified, s), Language(b.quantified, s);
      forall i: nat, j: nat ensures RepeatsWithin(x, i, j, a.nmin, a.nmax) == RepeatsWithin(y, i, j, a.nmin, a.nmax) {
        forall k: nat ensures Repeats(x, i, j, k) == Repeats(y, i, j, k) { RepeatsSame(x, y, i, j, k); }
      }
    }
  }

  /** Folding does not change what a pattern matches. */
  lemma {:induction false} FoldLanguage(n: Node, s: string)
    requires WellFormed(n)
    ensures WellFormed(Fold(n)) && SameLanguage(n, Fold(n), s)
  {
    hide Language, Matches;
    FoldWellFormed(n);
    match n
    case Concatenation(left, right) =>
      FoldLanguage(left, s);
      FoldLanguage(right, s);
      CongruentLanguage(n, Fold(n), s);
    case Alternation(left, right) =>
      FoldLanguage(left, s);
      FoldLanguage(right, s);
      FoldAlternationLanguage(Fold(left), Fold(right), s);
      CongruentLanguage(n, Alternation(Fold(left), Fold(right)), s);
    case Quantifier(_, _, _, q) =>
      FoldLanguage(q, s);
      CongruentLanguage(n, Fold(n), s);
    case Capture(q) =>
      FoldLanguage(q, s);
      CongruentLanguage(n, Fold(n), s);
    case _ =>
  }

  function FoldAll(items: seq<Node>): seq<Node>
  {
    seq(|items|, k requires 0 <= k < |items| => Fold(items[k]))
  }

  lemma {:induction false} FoldConcat(items: seq<Node>)
    ensures Fold(Concat(items)) == Concat(FoldAll(items))
  {
    if |items| > 1 {
      FoldConcat(items[1..]);
      assert FoldAll(items)[1..] == FoldAll(items[1..]);
    }
  }

  // ----- Every accepted pattern gives a well-formed tree -----

  predicate AllWellFormed(items: seq<Node>)
  {
    forall k :: 0 <= k < |items| ==> WellFormed(items[k])
  }

  lemma {:induction false} ConcatWellFormed(items: seq<Node>)
    requires AllWellFormed(items)
    ensures WellFormed(Concat(items))
  {
    if |items| > 1 {
      ConcatWellFormed(items[1..]);
    }
  }

  lemma NoneWellFormed()
    ensures AllWellFormed([])
  {
  }

  lemma MoreWellFormed(items: seq<Node>, n: Node)
    requires AllWellFormed(items) && WellFormed(n)
    ensures AllWellFormed(items + [n])
  {
    hide WellFormed;
  }

  lemma ClassWellFormed(p: string, i: nat)
    requires SevenBit(p) && i <= |p|
    ensures var r := ClassNode(p, i); r.Done? ==> i <= r.end <= |p| && WellFormed(r.tree)
  {
  }

  lemma ItemWellFormed(p: string, i: nat, items: seq<Node>)
    requires SevenBit(p) && i < |p| && AllWellFormed(items) && !(p[i] == '\\' && i + 1 == |p|)
    ensures var r := Item(p, i, items); i < r.0 <= |p| && AllWellFormed(r.1)
  {
  }

  lemma {:induction false} ParseWellFormed(p: string, i: nat, depth: nat, items: seq<Node>)
    requires SevenBit(p) && i <= |p| && AllWellFormed(items)
    ensures var r := ParseFrom(p, i, depth, items); r.Done? ==> WellFormed(r.tree)
    decreases |p| - i
  {
    hide Item, ClassNode, Concat, AllWellFormed;
    ConcatWellFormed(items);
    NoneWellFormed();
    if i < |p| && p[i] != ')' {
      if p[i] == '|' {
        ParseWellFormed(p, i + 1, depth, []);
      } else if p[i] == '(' {
        ParseWellFormed(p, i + 1, depth + 1, []);
        var r := ParseFrom(p, i + 1, depth + 1, []);
        if r.Done? {
          MoreWellFormed(items, Capture(r.tree));
          ParseWellFormed(p, r.end, depth, items + [Capture(r.tree)]);
        }
      } else if p[i] == '[' {
        ClassWellFormed(p, i + 1);
        var r := ClassNode(p, i + 1);
        if r.Done? {
          MoreWellFormed(items, r.tree);
          ParseWellFormed(p, r.end, depth, items + [r.tree]);
        }
      } else if !(p[i] == '\\' && i + 1 == |p|) {
        ItemWellFormed(p, i, items);
        var r := Item(p, i, items);
        ParseWellFormed(p, r.0, depth, r.1);
      }
    }
  }

  // ----- Errors -----

  datatype Verdict = Sound | Faulty | Past

  /** A walk over the text alone, which does not build trees: it skips what an escape or a class hides and
      counts the groups that are open. The text is faulty if a class is, if a group is closed that is not
      open, or if one is left open; and the walk goes past the end if the last backslash escapes the
      terminator. */
  function Walk(p: string, i: nat, level: nat): Verdict
    requires SevenBit(p) && i <= |p|
    decreases |p| - i
  {
    if i == |p| then if level == 0 then Sound else Faulty
    else if p[i] == ')' then if level > 0 then Walk(p, i + 1, level - 1) else Faulty
    else if p[i] == '(' then Walk(p, i + 1, level + 1)
    else if p[i] == '[' then
      var from := ClassFrom(p, i + 1);
      match ClassScan(p[from..], 0, [])
      case Closed(len, _) => Walk(p, from + len + 1, level)
      case Overrun => Past
      case _ => Faulty
    else if p[i] == '\\' then if i + 1 == |p| then Past else Walk(p, i + 2, level)
    else Walk(p, i + 1, level)
  }

  /** Where the text of a class starts, after its bracket and a caret. */
  function ClassFrom(p: string, i: nat): (r: nat)
    requires i <= |p|
    ensures i <= r <= |p|
  {
    if CharAt(p, i) == '^' then i + 1 else i
  }

  predicate Plain(c: char)
  {
    c != ')' && c != '(' && c != '[' && c != '\\'
  }

  lemma {:induction false} PlainSkip(p: string, i: nat, j: nat, level: nat)
    requires SevenBit(p) && i <= j <= |p| && forall k :: i <= k < j ==> Plain(p[k])
    ensures Walk(p, i, level) == Walk(p, j, level)
    decreases j - i
  {
    if i < j { PlainSkip(p, i + 1, j, level); }
  }

  lemma {:induction false} DigitsPlain(p: string, i: nat, acc: nat)
    requires i <= |p|
    ensures forall k :: i <= k < Digits(p, i, acc).1 ==> Plain(p[k])
    decreases |p| - i
  {
    if i < |p| && IsDigit(p[i]) { DigitsPlain(p, i + 1, acc * 10 + (p[i] as int - '0' as int)); }
  }

  lemma IntervalPlain(p: string, i: nat)
    requires i <= |p| && Interval(p, i).Some?
    ensures forall k :: i <= k < Interval(p, i).value.end ==> Plain(p[k])
  {
    DigitsPlain(p, i, 0);
    var j := Digits(p, i, 0).1;
    if CharAt(p, j) == ',' { DigitsPlain(p, j + 1, 0); }
  }

  /** An item is skipped by the walk. */
  lemma ItemSkip(p: string, i: nat, items: seq<Node>, level: nat)
    requires SevenBit(p) && i < |p| && (p[i] == '\\' ==> i + 1 < |p|) && p[i] != ')' && p[i] != '(' && p[i] != '['
    ensures Walk(p, i, level) == Walk(p, Item(p, i, items).0, level)
  {
    hide Walk, Interval;
    var r := Item(p, i, items);
    if p[i] == '\\' {
      EscapeSkip(p, i, level);
    } else {
      if items != [] && p[i] == '{' && Interval(p, i + 1).Some? { IntervalPlain(p, i + 1); }
      PlainSkip(p, i, r.0, level);
    }
  }

  lemma EscapeSkip(p: string, i: nat, level: nat)
    requires SevenBit(p) && i + 1 < |p| && p[i] == '\\'
    ensures Walk(p, i, level) == Walk(p, i + 2, level)
  {
  }

  /** What the walk says after a call of the parser that ended in `r`. */
  function WalkAfter(p: string, r: Parse, depth: nat): Verdict
    requires SevenBit(p)
  {
    match r
    case Beyond => Past
    case Bad => Faulty
    case Done(end, _) => if depth > 0 && end <= |p| then Walk(p, end, depth - 1) else Sound
  }

  lemma ClassWalk(p: string, i: nat, level: nat)
    requires SevenBit(p) && i < |p| && p[i] == '['
    ensures
      match ClassNode(p, i + 1)
      case Done(end, _) => end <= |p| && Walk(p, i, level) == Walk(p, end, level)
      case Beyond => Walk(p, i, level) == Past
      case Bad => Walk(p, i, level) == Faulty
  {
    hide ClassScan;
  }

  lemma {:induction false} WalkFollows(p: string, i: nat, depth: nat, items: seq<Node>)
    requires SevenBit(p) && i <= |p|
    ensures Walk(p, i, depth) == WalkAfter(p, ParseFrom(p, i, depth, items), depth)
    decreases |p| - i
  {
    hide Item, ClassScan, ClassNode, Concat, ClassFrom;
    if i < |p| && p[i] != ')' {
      if p[i] == '|' {
        WalkFollows(p, i + 1, depth, []);
      } else if p[i] == '(' {
        WalkFollows(p, i + 1, depth + 1, []);
        var r := ParseFrom(p, i + 1, depth + 1, []);
        if r.Done? { WalkFollows(p, r.end, depth, items + [Capture(r.tree)]); }
      } else if p[i] == '[' {
        ClassWalk(p, i, depth);
        var r := ClassNode(p, i + 1);
        if r.Done? { WalkFollows(p, r.end, depth, items + [r.tree]); }
      } else if !(p[i] == '\\' && i + 1 == |p|) {
        ItemSkip(p, i, items, depth);
        var r := Item(p, i, items);
        WalkFollows(p, r.0, depth, r.1);
      }
    }
  }

  /** The parser runs past the terminator, rejects a pattern or accepts it exactly as the walk says. */
  lemma VerdictExactly(p: string)
    requires SevenBit(p)
    ensures
      var r := ParseFrom(p, 0, 0, []);
      && (r.Beyond? <==> Walk(p, 0, 0) == Past)
      && (r.Bad? <==> Walk(p, 0, 0) == Faulty)
      && (r.Done? <==> Walk(p, 0, 0) == Sound)
  {
    WalkFollows(p, 0, 0, []);
  }

  /** In particular the last character is then a backslash. */
  lemma {:induction false} OverrunEndsInBackslash(p: string, i: nat, level: nat)
    requires SevenBit(p) && i <= |p| && Walk(p, i, level) == Past
    ensures p != [] && p[|p| - 1] == '\\'
    decreases |p| - i
  {
    if p[i] == ')' {
      OverrunEndsInBackslash(p, i + 1, level - 1);
    } else if p[i] == '(' {
      OverrunEndsInBackslash(p, i + 1, level + 1);
    } else if p[i] == '[' {
      var from := ClassFrom(p, i + 1);
      var r := ClassScan(p[from..], 0, []);
      if r.Closed? { OverrunEndsInBackslash(p, from + r.end + 1, level); }
      else { ClassEndsInBackslash(p[from..], 0, []); }
    } else if p[i] == '\\' {
      if i + 1 < |p| { OverrunEndsInBackslash(p, i + 2, level); }
    } else {
      OverrunEndsInBackslash(p, i + 1, level);
    }
  }

  lemma {:induction false} ClassEndsInBackslash(t: string, i: nat, acc: seq<Range>)
    requires SevenBit(t) && i <= |t| && ClassScan(t, i, acc).Overrun?
    ensures t != [] && t[|t| - 1] == '\\'
    decreases |t| - i
  {
    if !(t[i] == '\\' && i + 1 == |t|) {
      var k := if t[i] == '\\' then i + 2 else i + 1;
      var ch := if t[i] == '\\' then t[i + 1] else t[i];
      if k < |t| && t[k] == '-' && CharAt(t, k + 1) != ']' {
        ClassEndsInBackslash(t, k + 2, acc + [Range(ch, t[k + 1])]);
      } else {
        ClassEndsInBackslash(t, k, acc + [Range(ch, ch)]);
      }
    }
  }

  /** Two backslashes at the end do not run past it. */
  lemma TwoBackslashes()
    ensures SevenBit("a\\\\") && Walk("a\\\\", 0, 0) == Sound && Walk("a\\", 0, 0) == Past
  {
    var p, q := "a\\\\", "a\\";
    assert Walk(p, 3, 0) == Sound && Walk(p, 1, 0) == Sound;
    assert Walk(q, 1, 0) == Past;
  }

  // ----- A pattern -----

  const OPTIONAL_ANCHOR: Node :=
    Concatenation(Quantifier(0, 1, true, Capture(Concatenation(AnchorBegin, Character('a')))), Character('b'))

  /** The group of that pattern. */
  lemma AnchorGroupParses()
    ensures SevenBit("(^a)?b") && ParseFrom("(^a)?b", 1, 1, []) == Done(4, Concatenation(AnchorBegin, Character('a')))
  {
    var p, inner := "(^a)?b", [AnchorBegin, Character('a')];
    assert Concat(inner) == Concatenation(AnchorBegin, Character('a')) by { assert inner[1..] == [Character('a')]; }
    assert ParseFrom(p, 3, 1, inner) == Done(4, Concat(inner));
    assert ParseFrom(p, 2, 1, [AnchorBegin]) == Done(4, Concat(inner)) by {
      assert [AnchorBegin] + [Character('a')] == inner;
    }
    assert [] + [AnchorBegin] == [AnchorBegin];
  }

  /** What follows the group. */
  lemma AfterGroupParses(group: Node)
    ensures SevenBit("(^a)?b")
    ensures ParseFrom("(^a)?b", 4, 0, [group]) == Done(7, Concatenation(Quantifier(0, 1, true, group), Character('b')))
  {
    var p, optional := "(^a)?b", Quantifier(0, 1, true, group);
    var outer := [optional, Character('b')];
    assert Concat(outer) == Concatenation(optional, Character('b')) by { assert outer[1..] == [Character('b')]; }
    assert ParseFrom(p, 6, 0, outer) == Done(7, Concat(outer));
    assert ParseFrom(p, 5, 0, [optional]) == Done(7, Concat(outer)) by {
      assert [optional] + [Character('b')] == outer;
    }
    assert [group][..0] + [optional] == [optional];
  }

  /** The text of that tree. */
  lemma OptionalAnchorParses()
    ensures SevenBit("(^a)?b") && ParseFrom("(^a)?b", 0, 0, []) == Done(7, OPTIONAL_ANCHOR)
    ensures Fold(OPTIONAL_ANCHOR) == OPTIONAL_ANCHOR
  {
    AnchorGroupParses();
    var group := Capture(Concatenation(AnchorBegin, Character('a')));
    AfterGroupParses(group);
    assert [] + [group] == [group];
  }
}
