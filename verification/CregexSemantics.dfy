/** What a pattern means: the text of a character class as a list of ranges, and an abstract
    syntax tree as the set of spans of a subject that it matches. Nothing here mentions
    programs, threads or buffers. */
module CregexSemantics {
  import opened Wrappers
  import opened Cregex

  // ----- Character classes -----

  datatype Range = Range(lo: char, hi: char)

  /** `end` is the offset of the bracket that closes the class. A class text that ends in an
      escape makes the scan step over the terminator. */
  datatype Scan = Closed(end: nat, items: seq<Range>) | Unterminated | EmptyRange | Overrun

  /** The class text from offset `i` on, `acc` being the ranges before it. A closing bracket at
      offset 0 is an ordinary character; an escape gives the first end of a range, but not the
      second. */
  function ClassScan(t: string, i: nat, acc: seq<Range>): (r: Scan)
    requires SevenBit(t) && i <= |t|
    ensures r.Closed? ==> i <= r.end < |t| && t[r.end] == ']'
    ensures r.Closed? && (forall k :: 0 <= k < |acc| ==> acc[k].hi as int < 128) ==>
      forall k :: 0 <= k < |r.items| ==> r.items[k].hi as int < 128
    decreases |t| - i
  {
    if i == |t| then
      Unterminated
    else if t[i] == ']' && i > 0 then
      Closed(i, acc)
    else if t[i] == '\\' && i + 1 == |t| then
      Overrun
    else
      var k := if t[i] == '\\' then i + 2 else i + 1;
      var ch := if t[i] == '\\' then t[i + 1] else t[i];
      if k < |t| && t[k] == '-' && CharAt(t, k + 1) != ']' then
        if CharAt(t, k + 1) < ch then EmptyRange
        else ClassScan(t, k + 2, acc + [Range(ch, t[k + 1])])
      else
        ClassScan(t, k, acc + [Range(ch, ch)])
  }

  predicate InItems(items: seq<Range>, c: char)
  {
    exists k :: 0 <= k < |items| && items[k].lo <= c <= items[k].hi
  }

  /** The ranges of a class node. */
  function ClassItems(from: string): seq<Range>
    requires SevenBit(from)
  {
    var r := ClassScan(from, 0, []);
    if r.Closed? then r.items else []
  }

  // ----- Trees -----

  /** Trees the parser can build: a class has a closing bracket where the node says, and an
      interval is not empty. */
  predicate WellFormed(n: Node)
  {
    match n
    case CharacterClass(_, from, len) =>
      SevenBit(from) && ClassScan(from, 0, []).Closed? && ClassScan(from, 0, []).end == len
    case Concatenation(left, right) => WellFormed(left) && WellFormed(right)
    case Alternation(left, right) => WellFormed(left) && WellFormed(right)
    case Quantifier(nmin, nmax, _, q) => 0 <= nmin && (nmax == -1 || nmin <= nmax) && WellFormed(q)
    case Capture(q) => WellFormed(q)
    case _ => true
  }

  /** A set of spans: pairs of a start and an end offset. */
  type Spans = (nat, nat) -> bool

  /** The span is made of `k` consecutive spans of the set. */
  ghost predicate Repeats(r: Spans, i: nat, j: nat, k: nat)
    decreases k
  {
    if k == 0 then i == j
    else exists m: nat :: Repeats(r, i, m, k - 1) && r(m, j)
  }

  /** Some span of `a` directly followed by some span of `b`. */
  ghost predicate Follows(a: Spans, b: Spans, i: nat, j: nat)
  {
    exists k: nat :: a(i, k) && b(k, j)
  }

  /** Between `nmin` and `nmax` consecutive spans, or any number from `nmin` when `nmax` is -1. */
  ghost predicate RepeatsWithin(r: Spans, i: nat, j: nat, nmin: int, nmax: int)
  {
    exists k: nat :: nmin <= k && (nmax == -1 || k <= nmax) && Repeats(r, i, j, k)
  }

  /** The span [i, j) of the subject is in the language of the tree. */
  ghost predicate Matches(n: Node, s: string, i: nat, j: nat)
    requires WellFormed(n)
    decreases n, 0
  {
    match n
    case Epsilon => i == j
    case Character(ch) => i < |s| && s[i] == ch && j == i + 1
    case AnyCharacter => i < |s| && j == i + 1
    case CharacterClass(negated, from, _) =>
      i < |s| && j == i + 1 && (InItems(ClassItems(from), s[i]) <==> !negated)
    case Concatenation(left, right) => Follows(Language(left, s), Language(right, s), i, j)
    case Alternation(left, right) => Matches(left, s, i, j) || Matches(right, s, i, j)
    case Quantifier(nmin, nmax, _, q) => RepeatsWithin(Language(q, s), i, j, nmin, nmax)
    case AnchorBegin => i == j == 0
    case AnchorEnd => i == j == |s|
    case Capture(q) => Matches(q, s, i, j)
  }

  ghost function Language(n: Node, s: string): Spans
    requires WellFormed(n)
    decreases n, 1
  {
    (i: nat, j: nat) => Matches(n, s, i, j)
  }

  /** The language of a tree in terms of those of its parts. */
  lemma LanguageParts(n: Node, s: string)
    requires WellFormed(n)
    ensures n.Concatenation? ==> forall i: nat, j: nat ::
      Language(n, s)(i, j) == Follows(Language(n.left, s), Language(n.right, s), i, j)
    ensures n.Alternation? ==> forall i: nat, j: nat ::
      Language(n, s)(i, j) == (Language(n.left, s)(i, j) || Language(n.right, s)(i, j))
    ensures n.Quantifier? ==> forall i: nat, j: nat ::
      Language(n, s)(i, j) == RepeatsWithin(Language(n.quantified, s), i, j, n.nmin, n.nmax)
    ensures n.Capture? ==> forall i: nat, j: nat ::
      Language(n, s)(i, j) == Language(n.captured, s)(i, j)
  {
    assert forall i: nat, j: nat :: Language(n, s)(i, j) == Matches(n, s, i, j);
  }

  lemma {:induction false} RepeatsJoin(r: Spans, i: nat, m: nat, j: nat, a: nat, b: nat)
    requires Repeats(r, i, m, a) && Repeats(r, m, j, b)
    ensures Repeats(r, i, j, a + b)
    decreases b
  {
    if b > 0 {
      var k: nat :| Repeats(r, m, k, b - 1) && r(k, j);
      RepeatsJoin(r, i, m, k, a, b - 1);
    }
  }

  lemma {:induction false} RepeatsSplit(r: Spans, i: nat, j: nat, a: nat, b: nat) returns (m: nat)
    requires Repeats(r, i, j, a + b)
    ensures Repeats(r, i, m, a) && Repeats(r, m, j, b)
    decreases b
  {
    if b == 0 {
      m := j;
    } else {
      var k: nat :| Repeats(r, i, k, a + b - 1) && r(k, j);
      m := RepeatsSplit(r, i, k, a, b - 1);
    }
  }

  lemma RepeatsOnce(r: Spans, i: nat, j: nat)
    ensures Repeats(r, i, j, 1) <==> r(i, j)
  {
    if r(i, j) {
      assert Repeats(r, i, i, 0);
    }
  }

  /** The first of several consecutive spans. */
  lemma RepeatsFirst(r: Spans, i: nat, j: nat, k: nat) returns (m: nat)
    requires k > 0 && Repeats(r, i, j, k)
    ensures r(i, m) && Repeats(r, m, j, k - 1)
  {
    m := RepeatsSplit(r, i, j, 1, k - 1);
    RepeatsOnce(r, i, m);
  }

  lemma RepeatsPrepend(r: Spans, i: nat, m: nat, j: nat, k: nat)
    requires r(i, m) && Repeats(r, m, j, k)
    ensures Repeats(r, i, j, 1 + k)
  {
    RepeatsOnce(r, i, m);
    RepeatsJoin(r, i, m, j, 1, k);
  }

  // ----- Spans run forward and stay inside the subject -----

  ghost predicate Forward(r: Spans, size: nat)
  {
    forall i: nat, j: nat :: r(i, j) ==> i <= j && (i <= size ==> j <= size)
  }

  lemma {:induction false} RepeatsForward(r: Spans, size: nat, i: nat, j: nat, k: nat)
    requires Forward(r, size) && Repeats(r, i, j, k)
    ensures i <= j && (i <= size ==> j <= size)
  {
    if k > 0 {
      var m: nat :| Repeats(r, i, m, k - 1) && r(m, j);
      RepeatsForward(r, size, i, m, k - 1);
    }
  }

  lemma {:induction false} LanguageForward(n: Node, s: string)
    requires WellFormed(n)
    ensures Forward(Language(n, s), |s|)
  {
    match n
    case Concatenation(left, right) => LanguageForward(left, s); LanguageForward(right, s);
    case Alternation(left, right) => LanguageForward(left, s); LanguageForward(right, s); AlternationForward(n, s);
    case Quantifier(nmin, nmax, _, q) => LanguageForward(q, s); RepeatsWithinForward(Language(q, s), |s|, nmin, nmax);
    case Capture(q) =>
      LanguageForward(q, s);
      assert forall i: nat, j: nat :: Language(n, s)(i, j) == Language(q, s)(i, j);
    case _ =>
  }

  lemma RepeatsWithinForward(r: Spans, size: nat, nmin: int, nmax: int)
    requires Forward(r, size)
    ensures forall i: nat, j: nat :: RepeatsWithin(r, i, j, nmin, nmax) ==> i <= j && (i <= size ==> j <= size)
  {
    forall i: nat, j: nat, k: nat | Repeats(r, i, j, k) ensures i <= j && (i <= size ==> j <= size) {
      RepeatsForward(r, size, i, j, k);
    }
  }

  lemma AlternationForward(n: Node, s: string)
    requires WellFormed(n) && n.Alternation?
    requires Forward(Language(n.left, s), |s|) && Forward(Language(n.right, s), |s|)
    ensures Forward(Language(n, s), |s|)
  {
    assert forall i: nat, j: nat :: Language(n, s)(i, j) == (Language(n.left, s)(i, j) || Language(n.right, s)(i, j));
  }
}
