/** Patterns as they are written (src/cregex_parse.c:53-246): the text of every construct, and that parsing
    the text gives back the tree of what was written. */
module CregexPrint {
  import opened Wrappers
  import opened Cregex
  import opened CregexSemantics
  import opened CregexGrammar

  // ----- What can be written -----

  /** An entry of a class: a character or a range, whose first character may be escaped. */
  datatype Entry = One(ch: char, escaped: bool) | Span(ch: char, hi: char, escaped: bool)

  /** `braces` asks for an interval where there is a shorter sign. */
  datatype Piece =
    | Literal(ch: char, escaped: bool)
    | Dot
    | Begin
    | End
    | Set(negated: bool, entries: seq<Entry>)
    | Group(body: Regex)
    | Repeat(nmin: nat, nmax: int, greedy: bool, braces: bool, piece: Piece)

  datatype Pieces = Nil | Cons(head: Piece, tail: Pieces)

  datatype Regex = Branch(pieces: Pieces) | Or(pieces: Pieces, rest: Regex)

  // ----- How it is written -----

  function Digit(k: nat): char
    requires k < 10
  {
    ('0' as int + k) as char
  }

  function Decimal(n: nat): string
  {
    if n < 10 then [Digit(n)] else Decimal(n / 10) + [Digit(n % 10)]
  }

  function EntryText(e: Entry): string
  {
    (if e.escaped then "\\" else "") + [e.ch] + if e.Span? then ['-', e.hi] else ""
  }

  function EntriesText(es: seq<Entry>): string
  {
    if es == [] then "" else EntryText(es[0]) + EntriesText(es[1..])
  }

  /** The sign of a quantifier. */
  function Sign(nmin: nat, nmax: int, braces: bool): string
  {
    if !braces && nmin == 0 && nmax == -1 then "*"
    else if !braces && nmin == 1 && nmax == -1 then "+"
    else if !braces && nmin == 0 && nmax == 1 then "?"
    else "{" + BoundsText(nmin, nmax) + "}"
  }

  function BoundsText(nmin: nat, nmax: int): string
  {
    if nmax == nmin then Decimal(nmin)
    else if nmax < 0 then Decimal(nmin) + ","
    else Decimal(nmin) + "," + Decimal(nmax)
  }

  /** The sign, and the mark of a lazy one. */
  function Marked(nmin: nat, nmax: int, braces: bool, greedy: bool): string
  {
    Sign(nmin, nmax, braces) + if greedy then "" else "?"
  }

  function Text(x: Piece): string
  {
    match x
    case Literal(ch, escaped) => if escaped then ['\\', ch] else [ch]
    case Dot => "."
    case Begin => "^"
    case End => "$"
    case Set(negated, entries) => "[" + (if negated then "^" else "") + EntriesText(entries) + "]"
    case Group(body) => "(" + RegexText(body) + ")"
    case Repeat(nmin, nmax, greedy, braces, piece) => Text(piece) + Marked(nmin, nmax, braces, greedy)
  }

  function PiecesText(xs: Pieces): string
  {
    match xs
    case Nil => ""
    case Cons(head, tail) => Text(head) + PiecesText(tail)
  }

  function RegexText(r: Regex): string
  {
    match r
    case Branch(pieces) => PiecesText(pieces)
    case Or(pieces, rest) => PiecesText(pieces) + "|" + RegexText(rest)
  }

  // ----- What may be written -----

  predicate Printable(c: char)
  {
    NUL < c && c as int < 128
  }

  /** A character that stands for itself. The sign of a quantifier does so where there is nothing to
      repeat. */
  predicate Plain(c: char, first: bool)
  {
    c !in "\\.^$()|[" && (c in "?*+{" ==> first)
  }

  /** A hyphen stands for itself at the beginning and at the end of a class, a bracket at the beginning, and a
      caret anywhere else. */
  predicate PlainEntry(e: Entry, first: bool, last: bool, negated: bool)
  {
    && e.ch != '\\' && (e.ch == '-' ==> first || (last && e.One?))
    && (e.ch == ']' ==> first) && (e.ch == '^' ==> !first || negated)
  }

  predicate ValidEntry(e: Entry, first: bool, last: bool, negated: bool)
  {
    && Printable(e.ch) && (!e.escaped ==> PlainEntry(e, first, last, negated))
    && (e.Span? ==> Printable(e.hi) && e.hi != ']' && e.ch <= e.hi)
  }

  predicate ValidEntries(es: seq<Entry>, negated: bool)
  {
    es != [] && AllValid(es, true, negated)
  }

  predicate AllValid(es: seq<Entry>, first: bool, negated: bool)
  {
    forall k :: 0 <= k < |es| ==> ValidEntry(es[k], first && k == 0, k == |es| - 1, negated)
  }

  lemma AllValidTail(es: seq<Entry>, first: bool, negated: bool)
    requires AllValid(es, first, negated) && es != []
    ensures ValidEntry(es[0], first, |es| == 1, negated) && AllValid(es[1..], false, negated)
  {
    hide ValidEntry;
  }

  /** The mark that makes a quantifier lazy must not follow a greedy one: `?` on a repetition needs braces
      then. */
  predicate Valid(x: Piece, first: bool)
  {
    match x
    case Literal(ch, escaped) => Printable(ch) && (!escaped ==> Plain(ch, first))
    case Set(negated, entries) => ValidEntries(entries, negated)
    case Group(body) => ValidRegex(body)
    case Repeat(nmin, nmax, _, braces, piece) =>
      && Valid(piece, first) && (nmax == -1 || nmin <= nmax)
      && (!braces && nmin == 0 && nmax == 1 ==> !OpenEnded(piece))
    case _ => true
  }

  /** A greedy repetition: what follows it must not be a question mark. */
  predicate OpenEnded(x: Piece)
  {
    x.Repeat? && x.greedy
  }

  predicate ValidPieces(xs: Pieces, first: bool)
  {
    xs.Cons? ==> Valid(xs.head, first) && ValidPieces(xs.tail, false)
  }

  predicate ValidRegex(r: Regex)
  {
    ValidPieces(r.pieces, true) && (r.Or? ==> ValidRegex(r.rest))
  }

  // ----- The tree of what was written -----

  function RangeOf(e: Entry): Range
  {
    Range(e.ch, if e.Span? then e.hi else e.ch)
  }

  function Ranges(es: seq<Entry>): seq<Range>
  {
    if es == [] then [] else [RangeOf(es[0])] + Ranges(es[1..])
  }

  /** `after` is the rest of the text, which the node of a class points into. */
  function Tree(x: Piece, after: string): Node
  {
    match x
    case Literal(ch, _) => Character(ch)
    case Dot => AnyCharacter
    case Begin => AnchorBegin
    case End => AnchorEnd
    case Set(negated, entries) => CharacterClass(negated, EntriesText(entries) + "]" + after, |EntriesText(entries)|)
    case Group(body) => Capture(RegexTree(body, ")" + after))
    case Repeat(nmin, nmax, greedy, braces, piece) =>
      Quantifier(nmin, nmax, greedy, Tree(piece, Marked(nmin, nmax, braces, greedy) + after))
  }

  function Nodes(xs: Pieces, after: string): seq<Node>
  {
    match xs
    case Nil => []
    case Cons(head, tail) => [Tree(head, PiecesText(tail) + after)] + Nodes(tail, after)
  }

  function RegexTree(r: Regex, after: string): Node
  {
    match r
    case Branch(pieces) => Concat(Nodes(pieces, after))
    case Or(pieces, rest) =>
      Alternation(Concat(Nodes(pieces, "|" + RegexText(rest) + after)), RegexTree(rest, after))
  }

  // ----- Numbers and intervals -----

  function Value(ds: string, acc: nat): nat
    requires AllDigits(ds)
  {
    if ds == "" then acc else Value(ds[1..], acc * 10 + (ds[0] as int - '0' as int))
  }

  predicate AllDigits(ds: string)
  {
    forall k :: 0 <= k < |ds| ==> IsDigit(ds[k])
  }

  lemma {:induction false} ValueLast(ds: string, d: char, acc: nat)
    requires AllDigits(ds) && IsDigit(d)
    ensures AllDigits(ds + [d]) && Value(ds + [d], acc) == Value(ds, acc) * 10 + (d as int - '0' as int)
  {
    if ds == "" {
      assert ds + [d] == [d] && [d][1..] == "";
    } else {
      assert (ds + [d])[1..] == ds[1..] + [d];
      ValueLast(ds[1..], d, acc * 10 + (ds[0] as int - '0' as int));
    }
  }

  lemma {:induction false} DecimalValue(n: nat)
    ensures Decimal(n) != "" && AllDigits(Decimal(n)) && Value(Decimal(n), 0) == n
  {
    if n < 10 {
      assert [Digit(n)][1..] == "";
    } else {
      DecimalValue(n / 10);
      ValueLast(Decimal(n / 10), Digit(n % 10), 0);
    }
  }

  lemma {:induction false} DigitsRead(p: string, i: nat, acc: nat, ds: string, after: string)
    requires i <= |p| && p[i..] == ds + after && AllDigits(ds) && !IsDigit(CharAt(after, 0))
    ensures Digits(p, i, acc) == (Value(ds, acc), i + |ds|)
    decreases |ds|
  {
    if ds == "" {
      assert i < |p| ==> p[i] == p[i..][0] == after[0];
    } else {
      assert p[i] == p[i..][0] == ds[0];
      assert p[i + 1..] == p[i..][1..] == ds[1..] + after;
      DigitsRead(p, i + 1, acc * 10 + (ds[0] as int - '0' as int), ds[1..], after);
    }
  }

  /** Digits in the text. */
  lemma NumberRead(p: string, i: nat, ds: string, after: string)
    requires i <= |p| && AllDigits(ds) && p[i..] == ds + after && !IsDigit(CharAt(after, 0))
    ensures Digits(p, i, 0) == (Value(ds, 0), i + |ds|) && i + |ds| <= |p| && p[i + |ds|..] == after
    ensures ds != "" ==> IsDigit(p[i]) && IsDigit(p[i + |ds| - 1])
  {
    DigitsRead(p, i, 0, ds, after);
    Rest(p, i, ds, after);
    if ds != "" { assert p[i] == p[i..][0] && p[i + |ds| - 1] == p[i..][|ds| - 1]; }
  }

  lemma CharIs(p: string, i: nat, c: char, after: string)
    requires i <= |p| && p[i..] == [c] + after
    ensures i < |p| && p[i] == c && p[i + 1..] == after && CharAt(p, i) == c
  {
    assert p[i] == p[i..][0];
    assert p[i + 1..] == p[i..][1..];
  }

  /** The three forms, from the numbers and the signs after them. */
  lemma FormOne(p: string, i: nat, n: nat, j: nat)
    requires i < j < |p| && Digits(p, i, 0) == (n, j) && IsDigit(p[i]) && p[j] == '}'
    ensures Interval(p, i) == Some(Bounds(n, n, j + 1))
  {
    hide Digits;
  }

  lemma FormOpen(p: string, i: nat, n: nat, j: nat)
    requires i < j && j + 1 < |p| && Digits(p, i, 0) == (n, j) && IsDigit(p[i]) && p[j] == ',' && p[j + 1] == '}'
    ensures Interval(p, i) == Some(Bounds(n, -1, j + 2))
  {
    hide Digits;
  }

  lemma FormTwo(p: string, i: nat, a: nat, j: nat, b: nat, k: nat)
    requires i <= j && j + 1 < k < |p| && Digits(p, i, 0) == (a, j) && p[j] == ',' && a <= b
    requires Digits(p, j + 1, 0) == (b, k) && IsDigit(p[j + 1]) && IsDigit(p[k - 1]) && p[k] == '}'
    ensures Interval(p, i) == Some(Bounds(a, b, k + 1))
  {
    hide Digits;
  }

  /** A number and the brace after it. */
  lemma BracedNumber(p: string, i: nat, a: string, after: string)
    requires i <= |p| && AllDigits(a) && a != "" && p[i..] == a + ("}" + after)
    ensures Digits(p, i, 0) == (Value(a, 0), i + |a|) && i + |a| < |p| && p[i + |a|] == '}'
    ensures IsDigit(p[i]) && IsDigit(p[i + |a| - 1])
  {
    hide Digits, Value, AllDigits;
    NumberRead(p, i, a, "}" + after);
    CharIs(p, i + |a|, '}', after);
  }

  lemma TakenOne(p: string, i: nat, a: string, after: string)
    requires i <= |p| && AllDigits(a) && a != "" && p[i..] == a + ("}" + after)
    ensures Interval(p, i) == Some(Bounds(Value(a, 0), Value(a, 0), i + |a| + 1))
  {
    hide Digits, Value, AllDigits, Interval;
    BracedNumber(p, i, a, after);
    FormOne(p, i, Value(a, 0), i + |a|);
  }

  lemma TakenOpen(p: string, i: nat, a: string, after: string)
    requires i <= |p| && AllDigits(a) && a != "" && p[i..] == a + ("," + ("}" + after))
    ensures Interval(p, i) == Some(Bounds(Value(a, 0), -1, i + |a| + 2))
  {
    hide Digits, Value, AllDigits, Interval;
    NumberRead(p, i, a, "," + ("}" + after));
    CharIs(p, i + |a|, ',', "}" + after);
    CharIs(p, i + |a| + 1, '}', after);
    FormOpen(p, i, Value(a, 0), i + |a|);
  }

  lemma TakenTwo(p: string, i: nat, a: string, b: string, after: string)
    requires i <= |p| && AllDigits(a) && AllDigits(b) && b != "" && Value(a, 0) <= Value(b, 0)
    requires p[i..] == a + ("," + (b + ("}" + after)))
    ensures Interval(p, i) == Some(Bounds(Value(a, 0), Value(b, 0), i + |a| + 1 + |b| + 1))
  {
    hide Digits, Value, AllDigits, Interval;
    var rest := b + ("}" + after);
    CommaAfter(p, i, a, rest);
    BracedNumber(p, i + |a| + 1, b, after);
    FormTwo(p, i, Value(a, 0), i + |a|, Value(b, 0), i + |a| + 1 + |b|);
  }

  lemma CommaAfter(p: string, i: nat, a: string, rest: string)
    requires i <= |p| && AllDigits(a) && p[i..] == a + ("," + rest)
    ensures Digits(p, i, 0) == (Value(a, 0), i + |a|) && i + |a| < |p| && p[i + |a|] == ',' && p[i + |a| + 1..] == rest
  {
    hide Digits, Value, AllDigits;
    NumberRead(p, i, a, "," + rest);
    CharIs(p, i + |a|, ',', rest);
  }

  lemma IntervalRead(p: string, i: nat, nmin: nat, nmax: int, after: string)
    requires i <= |p| && p[i..] == BoundsText(nmin, nmax) + ("}" + after) && (nmax == -1 || nmin <= nmax)
    ensures Interval(p, i) == Some(Bounds(nmin, nmax, i + |BoundsText(nmin, nmax)| + 1))
  {
    hide Decimal, Interval, Value, AllDigits;
    DecimalValue(nmin);
    if nmax == nmin {
      TakenOne(p, i, Decimal(nmin), after);
    } else if nmax < 0 {
      assert p[i..] == Decimal(nmin) + ("," + ("}" + after));
      TakenOpen(p, i, Decimal(nmin), after);
    } else {
      DecimalValue(nmax);
      assert p[i..] == Decimal(nmin) + ("," + (Decimal(nmax) + ("}" + after)));
      TakenTwo(p, i, Decimal(nmin), Decimal(nmax), after);
    }
  }

  /** The text of an interval, up to its closing brace: one number, a number and a comma, or two numbers in
      order, of which the first can be left out. */
  ghost predicate IsInterval(t: string, nmin: nat, nmax: int)
  {
    exists a, b :: AllDigits(a) && AllDigits(b) && SpellsInterval(t, a, b, nmin, nmax)
  }

  predicate SpellsInterval(t: string, a: string, b: string, nmin: nat, nmax: int)
    requires AllDigits(a) && AllDigits(b)
  {
    && nmin == Value(a, 0)
    && (|| (t == a + "}" && a != "" && nmax == nmin)
        || (t == a + ",}" && a != "" && nmax == -1)
        || (t == a + "," + b + "}" && b != "" && nmax == Value(b, 0) && nmin <= nmax))
  }

  lemma {:induction false} DigitsSpan(p: string, i: nat, acc: nat)
    requires i <= |p|
    ensures
      var r := Digits(p, i, acc);
      AllDigits(p[i..r.1]) && r.0 == Value(p[i..r.1], acc)
    decreases |p| - i
  {
    if i < |p| && IsDigit(p[i]) {
      DigitsSpan(p, i + 1, acc * 10 + (p[i] as int - '0' as int));
      var j := Digits(p, i, acc).1;
      assert p[i..j] == [p[i]] + p[i + 1..j];
    } else {
      assert p[i..i] == "";
    }
  }

  /** What is taken for an interval is one. */
  lemma IntervalIs(p: string, i: nat)
    requires i <= |p| && Interval(p, i).Some?
    ensures var b := Interval(p, i).value; IsInterval(p[i..b.end], b.nmin, b.nmax)
  {
    hide Digits, Value;
    DigitsSpan(p, i, 0);
    var r, found := Digits(p, i, 0), Interval(p, i).value;
    var j := r.1;
    var a, t := p[i..j], p[i..found.end];
    if CharAt(p, j) == ',' {
      if found.nmax == -1 {
        assert t == a + ",}";
        assert SpellsInterval(t, a, "", found.nmin, found.nmax);
      } else {
        DigitsSpan(p, j + 1, 0);
        var k := Digits(p, j + 1, 0).1;
        var b := p[j + 1..k];
        assert t == a + "," + b + "}";
        assert SpellsInterval(t, a, b, found.nmin, found.nmax);
      }
    } else {
      assert t == a + "}";
      assert SpellsInterval(t, a, "", found.nmin, found.nmax);
    }
  }

  /** And every interval is taken for one. */
  lemma IntervalTaken(p: string, i: nat, end: nat, nmin: nat, nmax: int)
    requires i <= end <= |p| && IsInterval(p[i..end], nmin, nmax)
    ensures Interval(p, i) == Some(Bounds(nmin, nmax, end))
  {
    hide Digits, Value, Interval;
    var a, b :| AllDigits(a) && AllDigits(b) && SpellsInterval(p[i..end], a, b, nmin, nmax);
    var t, after := p[i..end], p[end..];
    assert p[i..] == t + after;
    hide AllDigits;
    if t == a + "}" && a != "" && nmax == nmin {
      assert p[i..] == a + ("}" + after);
      TakenOne(p, i, a, after);
    } else if t == a + ",}" && a != "" && nmax == -1 {
      assert p[i..] == a + ("," + ("}" + after));
      TakenOpen(p, i, a, after);
    } else {
      assert p[i..] == a + ("," + (b + ("}" + after)));
      TakenTwo(p, i, a, b, after);
    }
  }

  // ----- Classes -----

  /** The entries of a class, read up to the bracket that closes it. */
  lemma {:induction false} EntriesRead(t: string, i: nat, acc: seq<Range>, es: seq<Entry>, after: string, negated: bool)
    requires SevenBit(t) && i <= |t| && t[i..] == EntriesText(es) + ("]" + after)
    requires AllValid(es, i == 0, negated)
    requires i == 0 ==> es != []
    ensures ClassScan(t, i, acc) == Closed(i + |EntriesText(es)|, acc + Ranges(es))
    decreases |es|
  {
    hide ClassScan, EntryText, EntriesText, Ranges, ValidEntry, RangeOf, AllValid, NoRange;
    EntriesSplit(es, "]" + after, acc);
    if es == [] {
      CharIs(t, i, ']', after);
      ClosingRead(t, i, acc);
    } else {
      var e, rest := es[0], EntriesText(es[1..]) + ("]" + after);
      AllValidTail(es, i == 0, negated);
      RestStarts(es[1..], after, negated);
      EntryRead(t, i, acc, e, rest, |es| == 1, negated);
      Rest(t, i, EntryText(e), rest);
      EntryStarts(e);
      EntriesRead(t, i + |EntryText(e)|, acc + [RangeOf(e)], es[1..], after, negated);
    }
  }

  lemma EntriesSplit(es: seq<Entry>, tail: string, acc: seq<Range>)
    ensures es == [] ==> EntriesText(es) == "" && EntriesText(es) + tail == tail && acc + Ranges(es) == acc
    ensures es != [] ==>
      && EntriesText(es) + tail == EntryText(es[0]) + (EntriesText(es[1..]) + tail)
      && |EntriesText(es)| == |EntryText(es[0])| + |EntriesText(es[1..])|
      && acc + [RangeOf(es[0])] + Ranges(es[1..]) == acc + Ranges(es)
  {
    hide EntryText, RangeOf;
  }

  lemma EntryStarts(e: Entry)
    ensures |EntryText(e)| > 0
  {
  }

  lemma ClosingRead(t: string, i: nat, acc: seq<Range>)
    requires SevenBit(t) && 0 < i < |t| && t[i] == ']'
    ensures ClassScan(t, i, acc) == Closed(i, acc)
  {
  }

  /** What follows an entry does not start with a hyphen, unless the class ends there. */
  lemma RestStarts(es: seq<Entry>, after: string, negated: bool)
    requires AllValid(es, false, negated)
    ensures NoRange(EntriesText(es) + ("]" + after))
  {
    if es != [] {
      var e := es[0];
      AllValidTail(es, false, negated);
      if |es| == 1 { assert EntriesText(es[1..]) == "" && EntriesText(es) == EntryText(e); }
    }
  }

  predicate NoRange(rest: string)
  {
    rest != "" && (rest[0] == '-' ==> |rest| > 1 && rest[1] == ']')
  }

  /** One step of the scan. */
  lemma EntryRead(t: string, i: nat, acc: seq<Range>, e: Entry, rest: string, last: bool, negated: bool)
    requires SevenBit(t) && i <= |t| && t[i..] == EntryText(e) + rest && ValidEntry(e, i == 0, last, negated)
    requires NoRange(rest)
    ensures i + |EntryText(e)| <= |t|
    ensures ClassScan(t, i, acc) == ClassScan(t, i + |EntryText(e)|, acc + [RangeOf(e)])
  {
    var u := t[i..];
    var k := if e.escaped then 1 else 0;
    assert t[i] == u[0] && t[i + k] == u[k] == e.ch && t[i + k + 1] == u[k + 1];
    if |u| > k + 2 { assert t[i + k + 2] == u[k + 2]; }
  }

  /** A class, from its bracket on. */
  lemma SetRead(p: string, i: nat, depth: nat, acc: seq<Node>, x: Piece, after: string)
    requires x.Set? && Valid(x, true) && SevenBit(p) && i <= |p| && p[i..] == Text(x) + after
    ensures i + |Text(x)| <= |p|
    ensures ParseFrom(p, i, depth, acc) == ParseFrom(p, i + |Text(x)|, depth, acc + [Tree(x, after)])
  {
    hide ParseFrom, ClassScan, EntriesText, ClassNode;
    var body := EntriesText(x.entries);
    var tail := (if x.negated then "^" else "") + (body + ("]" + after));
    assert p[i..] == ['['] + tail;
    CharIs(p, i, '[', tail);
    SetNode(p, i + 1, x, after);
    OpensClass(p, i, depth, acc);
  }

  lemma OpensClass(p: string, i: nat, depth: nat, acc: seq<Node>)
    requires SevenBit(p) && i < |p| && p[i] == '['
    ensures
      var r := ClassNode(p, i + 1);
      ParseFrom(p, i, depth, acc) == if r.Done? then ParseFrom(p, r.end, depth, acc + [r.tree]) else r
  {
    hide ClassNode;
  }

  lemma SetNode(p: string, i: nat, x: Piece, after: string)
    requires x.Set? && Valid(x, true) && SevenBit(p) && i <= |p|
    requires p[i..] == (if x.negated then "^" else "") + (EntriesText(x.entries) + ("]" + after))
    ensures ClassNode(p, i) == Done(i + |Text(x)| - 1, Tree(x, after))
  {
    hide ClassScan, ValidEntries, EntriesText;
    var body := EntriesText(x.entries) + ("]" + after);
    if x.negated {
      CharIs(p, i, '^', body);
    } else {
      SetStarts(x.entries, x.negated, after);
      assert p[i..] == body;
      assert p[i] == p[i..][0];
    }
    SetScans(p[if x.negated then i + 1 else i..], x.entries, x.negated, after);
    assert body == EntriesText(x.entries) + "]" + after;
  }

  lemma SetScans(t: string, es: seq<Entry>, negated: bool, after: string)
    requires SevenBit(t) && ValidEntries(es, negated) && t == EntriesText(es) + ("]" + after)
    ensures ClassScan(t, 0, []) == Closed(|EntriesText(es)|, Ranges(es))
  {
    hide ClassScan, EntriesText, ValidEntry;
    assert t[0..] == t;
    EntriesRead(t, 0, [], es, after, negated);
    assert [] + Ranges(es) == Ranges(es);
  }

  lemma SetStarts(es: seq<Entry>, negated: bool, after: string)
    requires ValidEntries(es, negated) && !negated
    ensures var t := EntriesText(es) + ("]" + after); t != "" && t[0] != '^'
  {
    AllValidTail(es, true, negated);
  }

  // ----- Single pieces -----

  predicate IsSimple(x: Piece)
  {
    x.Literal? || x.Dot? || x.Begin? || x.End?
  }

  lemma SimpleRead(p: string, i: nat, depth: nat, acc: seq<Node>, x: Piece, after: string)
    requires IsSimple(x) && Valid(x, acc == []) && SevenBit(p) && i <= |p| && p[i..] == Text(x) + after
    ensures i + |Text(x)| <= |p|
    ensures ParseFrom(p, i, depth, acc) == ParseFrom(p, i + |Text(x)|, depth, acc + [Tree(x, after)])
  {
    var u := p[i..];
    assert p[i] == u[0];
    if |Text(x)| == 2 { assert p[i + 1] == u[1]; }
  }

  /** The sign of a quantifier, after something to repeat. */
  lemma SignRead(p: string, i: nat, depth: nat, acc: seq<Node>, nmin: nat, nmax: int, braces: bool, after: string)
    requires SevenBit(p) && i <= |p| && acc != [] && (nmax == -1 || nmin <= nmax)
    requires p[i..] == Sign(nmin, nmax, braces) + after
    ensures
      var q := Quantify(p, i + |Sign(nmin, nmax, braces)|, acc, nmin, nmax);
      i + |Sign(nmin, nmax, braces)| <= |p| && ParseFrom(p, i, depth, acc) == ParseFrom(p, q.0, depth, q.1)
  {
    hide Quantify, Interval, BoundsText;
    var sign := Sign(nmin, nmax, braces);
    assert p[i] == p[i..][0];
    if |sign| > 1 {
      assert p[i..] == ['{'] + (BoundsText(nmin, nmax) + ("}" + after));
      CharIs(p, i, '{', BoundsText(nmin, nmax) + ("}" + after));
      IntervalRead(p, i + 1, nmin, nmax, after);
    }
  }

  lemma MarkRead(p: string, i: nat, acc: seq<Node>, n: Node, nmin: nat, nmax: int, greedy: bool, after: string)
    requires i <= |p| && p[i..] == (if greedy then "" else "?") + after && (greedy ==> CharAt(after, 0) != '?')
    ensures Quantify(p, i, acc + [n], nmin, nmax) ==
              (if greedy then i else i + 1, acc + [Quantifier(nmin, nmax, greedy, n)])
  {
    if p[i..] != "" { assert p[i] == p[i..][0]; }
    assert (acc + [n])[..|acc|] == acc;
  }

  // ----- Everything together -----

  /** A piece is read as one more node, unless a question mark follows that would make it lazy. */
  lemma {:induction false} PieceRead(p: string, i: nat, depth: nat, acc: seq<Node>, x: Piece, after: string)
    requires Valid(x, acc == []) && SevenBit(p) && i <= |p| && p[i..] == Text(x) + after
    requires OpenEnded(x) ==> CharAt(after, 0) != '?'
    ensures i + |Text(x)| <= |p|
    ensures ParseFrom(p, i, depth, acc) == ParseFrom(p, i + |Text(x)|, depth, acc + [Tree(x, after)])
    decreases x
  {
    hide ParseFrom, Concat, Marked, EntriesText, RegexText, RegexTree, ValidEntries;
    match x
    case Set(_, _) => SetRead(p, i, depth, acc, x, after);
    case Group(body) => GroupRead(p, i, depth, acc, x, after);
    case Repeat(nmin, nmax, greedy, braces, piece) =>
      var rest := Marked(nmin, nmax, braces, greedy) + after;
      RepeatStarts(nmin, nmax, braces, greedy, after);
      assert p[i..] == Text(piece) + rest;
      PieceRead(p, i, depth, acc, piece, rest);
      Rest(p, i, Text(piece), rest);
      MarkedRead(p, i + |Text(piece)|, depth, acc, Tree(piece, rest), nmin, nmax, braces, greedy, after);
    case _ => SimpleRead(p, i, depth, acc, x, after);
  }

  /** A quantifier, with its mark. */
  lemma MarkedRead(p: string, i: nat, depth: nat, acc: seq<Node>, n: Node, nmin: nat, nmax: int, braces: bool,
                   greedy: bool, after: string)
    requires SevenBit(p) && i <= |p| && (nmax == -1 || nmin <= nmax) && (greedy ==> CharAt(after, 0) != '?')
    requires p[i..] == Marked(nmin, nmax, braces, greedy) + after
    ensures i + |Marked(nmin, nmax, braces, greedy)| <= |p|
    ensures ParseFrom(p, i, depth, acc + [n]) ==
            ParseFrom(p, i + |Marked(nmin, nmax, braces, greedy)|, depth, acc + [Quantifier(nmin, nmax, greedy, n)])
  {
    hide ParseFrom, Sign, Quantify;
    var sign, mark := Sign(nmin, nmax, braces), if greedy then "" else "?";
    assert p[i..] == sign + (mark + after);
    SignRead(p, i, depth, acc + [n], nmin, nmax, braces, mark + after);
    Rest(p, i, sign, mark + after);
    MarkRead(p, i + |sign|, acc, n, nmin, nmax, greedy, after);
  }

  lemma RepeatStarts(nmin: nat, nmax: int, braces: bool, greedy: bool, after: string)
    ensures
      var rest := Marked(nmin, nmax, braces, greedy) + after;
      rest != "" && (rest[0] == '?' <==> !braces && nmin == 0 && nmax == 1)
  {
    hide Sign;
    SignStarts(nmin, nmax, braces);
  }

  lemma SignStarts(nmin: nat, nmax: int, braces: bool)
    ensures Sign(nmin, nmax, braces) != ""
    ensures Sign(nmin, nmax, braces)[0] == '?' <==> !braces && nmin == 0 && nmax == 1
  {
  }

  lemma Rest(p: string, i: nat, text: string, after: string)
    requires i <= |p| && p[i..] == text + after
    ensures i + |text| <= |p| && p[i + |text|..] == after
  {
    assert p[i + |text|..] == p[i..][|text|..];
  }

  lemma {:induction false} GroupRead(p: string, i: nat, depth: nat, acc: seq<Node>, x: Piece, after: string)
    requires x.Group? && Valid(x, acc == []) && SevenBit(p) && i <= |p| && p[i..] == Text(x) + after
    ensures i + |Text(x)| <= |p|
    ensures ParseFrom(p, i, depth, acc) == ParseFrom(p, i + |Text(x)|, depth, acc + [Tree(x, after)])
    decreases x, 0
  {
    hide ParseFrom, Concat;
    var body := x.body;
    assert p[i..] == ['('] + (RegexText(body) + (")" + after));
    CharIs(p, i, '(', RegexText(body) + (")" + after));
    RegexRead(p, i + 1, depth + 1, body, ")" + after);
    OpensGroup(p, i, depth, acc);
  }

  lemma OpensGroup(p: string, i: nat, depth: nat, acc: seq<Node>)
    requires SevenBit(p) && i < |p| && p[i] == '('
    ensures
      var r := ParseFrom(p, i + 1, depth + 1, []);
      ParseFrom(p, i, depth, acc) == if r.Done? then ParseFrom(p, r.end, depth, acc + [Capture(r.tree)]) else r
  {
  }

  lemma {:induction false} PiecesRead(p: string, i: nat, depth: nat, acc: seq<Node>, xs: Pieces, after: string)
    requires ValidPieces(xs, acc == []) && SevenBit(p) && i <= |p| && p[i..] == PiecesText(xs) + after
    requires CharAt(after, 0) != '?'
    ensures i + |PiecesText(xs)| <= |p|
    ensures ParseFrom(p, i, depth, acc) == ParseFrom(p, i + |PiecesText(xs)|, depth, acc + Nodes(xs, after))
    decreases xs
  {
    hide ParseFrom, Concat, Text, Tree;
    match xs
    case Nil => assert acc + [] == acc;
    case Cons(head, tail) =>
      var rest := PiecesText(tail) + after;
      assert p[i..] == Text(head) + rest;
      PiecesStart(tail, after);
      PieceRead(p, i, depth, acc, head, rest);
      Rest(p, i, Text(head), rest);
      PiecesRead(p, i + |Text(head)|, depth, acc + [Tree(head, rest)], tail, after);
      assert acc + [Tree(head, rest)] + Nodes(tail, after) == acc + Nodes(xs, after);
  }

  lemma {:induction false} TextStarts(x: Piece)
    requires Valid(x, false)
    ensures Text(x) != "" && Text(x)[0] != '?'
  {
    if x.Repeat? { TextStarts(x.piece); }
  }

  lemma PiecesStart(xs: Pieces, after: string)
    requires ValidPieces(xs, false) && CharAt(after, 0) != '?'
    ensures CharAt(PiecesText(xs) + after, 0) != '?'
  {
    if xs.Cons? {
      TextStarts(xs.head);
    } else {
      assert PiecesText(xs) + after == after;
    }
  }

  /** All alternatives, up to the end of the pattern or of the group. */
  lemma {:induction false} RegexRead(p: string, i: nat, depth: nat, r: Regex, after: string)
    requires ValidRegex(r) && SevenBit(p) && i <= |p| && p[i..] == RegexText(r) + after
    requires if depth == 0 then after == "" else after != "" && after[0] == ')'
    ensures ParseFrom(p, i, depth, []) == Done(i + |RegexText(r)| + 1, RegexTree(r, after))
    decreases r, 1
  {
    hide ParseFrom, Concat, PiecesText, Nodes;
    match r
    case Branch(pieces) =>
      PiecesRead(p, i, depth, [], pieces, after);
      Rest(p, i, PiecesText(pieces), after);
      Closes(p, i + |PiecesText(pieces)|, depth, [] + Nodes(pieces, after));
      assert [] + Nodes(pieces, after) == Nodes(pieces, after);
    case Or(pieces, rest) =>
      BarRead(p, i, depth, r, after);
      RegexRead(p, i + |PiecesText(pieces)| + 1, depth, rest, after);
  }

  /** The first alternative, up to the bar after it. */
  lemma BarRead(p: string, i: nat, depth: nat, r: Regex, after: string)
    requires r.Or? && ValidRegex(r) && SevenBit(p) && i <= |p| && p[i..] == RegexText(r) + after
    decreases r, 0
    ensures
      var j := i + |PiecesText(r.pieces)| + 1;
      && j <= |p| && p[j..] == RegexText(r.rest) + after
      && var q := ParseFrom(p, j, depth, []);
         ParseFrom(p, i, depth, []) ==
           if !q.Done? then q
           else Done(q.end, Alternation(Concat(Nodes(r.pieces, "|" + RegexText(r.rest) + after)), q.tree))
  {
    hide ParseFrom, Concat, PiecesText, Nodes, ValidPieces;
    var pieces, more := r.pieces, RegexText(r.rest) + after;
    var tail, j := ['|'] + more, i + |PiecesText(pieces)|;
    assert p[i..] == PiecesText(pieces) + tail && tail == "|" + RegexText(r.rest) + after;
    PiecesRead(p, i, depth, [], pieces, tail);
    Rest(p, i, PiecesText(pieces), tail);
    CharIs(p, j, '|', more);
    Continues(p, j, depth, [] + Nodes(pieces, tail));
    assert [] + Nodes(pieces, tail) == Nodes(pieces, tail);
  }

  lemma Closes(p: string, i: nat, depth: nat, acc: seq<Node>)
    requires SevenBit(p) && i <= |p| && if depth == 0 then p[i..] == "" else p[i..] != "" && p[i..][0] == ')'
    ensures ParseFrom(p, i, depth, acc) == Done(i + 1, Concat(acc))
  {
    hide Concat;
    if depth > 0 { assert p[i] == p[i..][0]; }
  }

  lemma Continues(p: string, i: nat, depth: nat, acc: seq<Node>)
    requires SevenBit(p) && i < |p| && p[i] == '|'
    ensures
      var r := ParseFrom(p, i + 1, depth, []);
      ParseFrom(p, i, depth, acc) == if r.Done? then Done(r.end, Alternation(Concat(acc), r.tree)) else r
  {
    hide Concat;
  }

  // ----- The round trip -----

  lemma {:induction false} DecimalSevenBit(n: nat)
    ensures SevenBit(Decimal(n))
  {
    if n >= 10 { DecimalSevenBit(n / 10); }
  }

  lemma JoinSevenBit(a: string, b: string)
    requires SevenBit(a) && SevenBit(b)
    ensures SevenBit(a + b)
  {
  }

  lemma {:induction false} EntriesSevenBit(es: seq<Entry>, first: bool, negated: bool)
    requires AllValid(es, first, negated)
    ensures SevenBit(EntriesText(es))
  {
    if es != [] {
      AllValidTail(es, first, negated);
      EntriesSevenBit(es[1..], false, negated);
      JoinSevenBit(EntryText(es[0]), EntriesText(es[1..]));
    }
  }

  lemma MarkedSevenBit(nmin: nat, nmax: int, braces: bool, greedy: bool)
    ensures SevenBit(Marked(nmin, nmax, braces, greedy))
  {
    hide Decimal;
    DecimalSevenBit(nmin);
    if nmax >= 0 { DecimalSevenBit(nmax); }
  }

  lemma {:induction false} PieceSevenBit(x: Piece, first: bool)
    requires Valid(x, first)
    ensures SevenBit(Text(x))
    decreases x
  {
    hide Marked, EntriesText, RegexText;
    match x
    case Set(negated, entries) => EntriesSevenBit(entries, true, negated);
    case Group(body) => RegexSevenBit(body);
    case Repeat(nmin, nmax, greedy, braces, piece) =>
      PieceSevenBit(piece, first);
      MarkedSevenBit(nmin, nmax, braces, greedy);
      JoinSevenBit(Text(piece), Marked(nmin, nmax, braces, greedy));
    case _ =>
  }

  lemma {:induction false} PiecesSevenBit(xs: Pieces, first: bool)
    requires ValidPieces(xs, first)
    ensures SevenBit(PiecesText(xs))
    decreases xs
  {
    if xs.Cons? {
      PieceSevenBit(xs.head, first);
      PiecesSevenBit(xs.tail, false);
    }
  }

  lemma {:induction false} RegexSevenBit(r: Regex)
    requires ValidRegex(r)
    ensures SevenBit(RegexText(r))
    decreases r
  {
    PiecesSevenBit(r.pieces, true);
    if r.Or? { RegexSevenBit(r.rest); }
  }

  /** Everything that can be written is read back as it was meant: every character, wildcard, anchor, class,
      group, alternative and quantifier, with its bounds and its preference. */
  lemma RoundTrip(r: Regex)
    requires ValidRegex(r)
    ensures SevenBit(RegexText(r))
    ensures ParseFrom(RegexText(r), 0, 0, []) == Done(|RegexText(r)| + 1, RegexTree(r, ""))
  {
    hide ParseFrom, RegexTree;
    RegexSevenBit(r);
    var p := RegexText(r);
    assert p[0..] == p + "";
    RegexRead(p, 0, 0, r, "");
  }

  /** The node of a class denotes the entries that were written. */
  lemma SetMeans(x: Piece, after: string)
    requires x.Set? && Valid(x, true) && SevenBit(after)
    ensures
      var n := Tree(x, after);
      && SevenBit(n.from) && ClassScan(n.from, 0, []) == Closed(n.len, Ranges(x.entries))
      && ClassItems(n.from) == Ranges(x.entries) && n.negated == x.negated
  {
    hide ClassScan, EntriesText;
    EntriesSevenBit(x.entries, true, x.negated);
    var t := EntriesText(x.entries) + ("]" + after);
    assert t == EntriesText(x.entries) + "]" + after;
    SetScans(t, x.entries, x.negated, after);
  }
}
