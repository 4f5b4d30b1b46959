/** Whole programs: the search prefix, the capture of the whole match and the final match
    instruction that are put around the code of a pattern, and what running one decides. */
module CregexProgram {
  import opened Wrappers
  import opened Cregex
  import opened CregexSemantics
  import opened CregexGrammar
  import opened CregexBacktrack
  import opened CregexPaths
  import opened CregexCode
  import opened CregexCodeCorrect

  /** Whether the compiler takes a pattern to start with `^`. The minimum of a quantifier is not
      looked at. */
  predicate NodeIsAnchored(n: Node)
  {
    match n
    case Concatenation(left, _) => NodeIsAnchored(left)
    case Alternation(left, right) => NodeIsAnchored(left) && NodeIsAnchored(right)
    case Quantifier(_, _, _, q) => NodeIsAnchored(q)
    case AnchorBegin => true
    case Capture(q) => NodeIsAnchored(q)
    case _ => false
  }

  const SEARCH: Node := Quantifier(0, -1, false, AnyCharacter)

  /** The tree that is compiled for a pattern. */
  function Prefixed(n: Node): (r: Node)
    ensures WellFormed(n) ==> WellFormed(r)
  {
    var whole := Capture(n);
    assert WellFormed(n) ==> WellFormed(whole) && WellFormed(SEARCH);
    if NodeIsAnchored(n) then whole else Concatenation(SEARCH, whole)
  }

  function Assemble(n: Node): Program
    requires WellFormed(n)
  {
    Code(Prefixed(n), 0, 0) + [Match]
  }

  function EstimateInstructions(n: Node): int
  {
    CountInstructions(n) + (if NodeIsAnchored(n) then 0 else 3) + 2 + 1
  }

  lemma LinkedCode(code: seq<Instr>)
    requires Enclosed(code, 0)
    ensures Linked(code + [Match])
  {
    var p := code + [Match];
    forall pc | 0 <= pc < |p| ensures ValidInstr(p[pc], pc, |p|) && (p[pc].Match? <==> pc == |p| - 1) {
      if pc < |code| {
        assert p[pc] == code[pc] && Contained(code[pc], 0, |code|);
      }
    }
  }

  /** The generated program has exactly the estimated size, all its targets are inside it, and
      its only match instruction is the last one. */
  lemma AssembleLinked(n: Node)
    requires WellFormed(n)
    ensures Linked(Assemble(n))
    ensures |Assemble(n)| == EstimateInstructions(n)
  {
    CodeEnclosed(Prefixed(n), 0, 0);
    LinkedCode(Code(Prefixed(n), 0, 0));
    CodeLength(Prefixed(n), 0, 0);
    PrefixedLength(n);
  }

  lemma PrefixedLength(n: Node)
    ensures CountInstructions(Prefixed(n)) + 1 == EstimateInstructions(n)
  {
    assert CountInstructions(SEARCH) == 3;
    assert CountInstructions(Capture(n)) == 2 + CountInstructions(n);
  }

  lemma AssembleImplements(n: Node, s: string)
    requires WellFormed(n) && SevenBit(s)
    ensures Implements(Assemble(n), s, 0, |Assemble(n)| - 1, Language(Prefixed(n), s))
  {
    hide Implements, Code, Prefixed, Language, Matches;
    var p, code := Assemble(n), Code(Prefixed(n), 0, 0);
    assert p[0..|code|] == code;
    CodeImplements(Prefixed(n), p, 0, 0, s);
  }

  // ----- What a run decides -----

  /** The reference result of running the program of a pattern on a subject. */
  function Search(n: Node, s: string, width: nat): (r: Option<Slots>)
    requires WellFormed(n) && SevenBit(s)
    ensures r.Some? ==> |r.value| == width
  {
    AssembleLinked(n);
    Backtrack(Assemble(n), s, 0, 0, Blank(width), FreshMemo(s)).found
  }

  /** Any stretch of the subject is a run of arbitrary characters. */
  lemma {:induction false} AnyRuns(s: string, i: nat, k: nat)
    requires i + k <= |s|
    ensures Repeats(Language(AnyCharacter, s), i, i + k, k)
  {
    if k > 0 {
      AnyRuns(s, i, k - 1);
      assert Language(AnyCharacter, s)(i + k - 1, i + k);
    }
  }

  lemma SearchSpans(s: string, i: nat)
    ensures Language(SEARCH, s)(0, i) <==> i <= |s|
  {
    LanguageParts(SEARCH, s);
    LanguageForward(SEARCH, s);
    if i <= |s| { AnyRuns(s, 0, i); }
  }

  /** A span the search is entitled to report. */
  ghost predicate Sought(n: Node, s: string, i: nat, j: nat)
    requires WellFormed(n)
  {
    i <= j <= |s| && (NodeIsAnchored(n) ==> i == 0) && Matches(n, s, i, j)
  }

  lemma PrefixedMatches(n: Node, s: string, j: nat)
    requires WellFormed(n)
    ensures Language(Prefixed(n), s)(0, j) <==> exists i: nat :: Sought(n, s, i, j)
  {
    var whole := Capture(n);
    assert WellFormed(whole);
    LanguageParts(whole, s);
    LanguageForward(n, s);
    assert forall i: nat :: Language(whole, s)(i, j) == Language(n, s)(i, j) == Matches(n, s, i, j);
    if NodeIsAnchored(n) {
      assert Language(Prefixed(n), s)(0, j) ==> Sought(n, s, 0, j);
    } else {
      LanguageParts(Prefixed(n), s);
      if Language(Prefixed(n), s)(0, j) {
        var i: nat :| Language(SEARCH, s)(0, i) && Language(whole, s)(i, j);
        SearchSpans(s, i);
        assert Sought(n, s, i, j);
      }
      if i: nat :| Sought(n, s, i, j) {
        SearchSpans(s, i);
        assert Language(SEARCH, s)(0, i) && Language(whole, s)(i, j);
      }
    }
  }

  /** Backtracking through a program that implements some spans finds whether one of them starts
      at the start of the subject. */
  lemma RunDecides(p: Program, s: string, slots: Slots, r: Spans)
    requires Linked(p) && SevenBit(s) && Implements(p, s, 0, |p| - 1, r)
    ensures Backtrack(p, s, 0, 0, slots, FreshMemo(s)).found.Some? <==> exists j: nat :: r(0, j)
  {
    var start := Config(0, 0, slots);
    if Backtrack(p, s, 0, 0, slots, FreshMemo(s)).found.Some? {
      var j, m := BacktrackSound(p, s, 0, 0, slots, FreshMemo(s));
      assert Reaches(p, s, start, |p| - 1, j);
    } else {
      FailureDead(p, s, 0, 0, 0, slots, FreshMemo(s));
      forall j: nat ensures !r(0, j) {
        assert !Reaches(p, s, start, |p| - 1, j);
      }
    }
  }

  /** A run succeeds exactly when the pattern matches some span; for a pattern the compiler takes
      to be anchored, exactly when it matches some span at the start of the subject. */
  lemma SearchDecides(n: Node, s: string, width: nat)
    requires WellFormed(n) && SevenBit(s)
    ensures Search(n, s, width).Some? <==> exists i: nat, j: nat :: Sought(n, s, i, j)
  {
    AssembleLinked(n);
    AssembleImplements(n, s);
    var r := Language(Prefixed(n), s);
    RunDecides(Assemble(n), s, Blank(width), r);
    if j: nat :| r(0, j) {
      PrefixedMatches(n, s, j);
    }
    if i: nat, j: nat :| Sought(n, s, i, j) {
      PrefixedMatches(n, s, j);
    }
  }

  // ----- Anchors -----

  /** Every match of the tree starts at the start of the subject, whatever the subject: what
      NodeIsAnchored would say if it looked at the minimum of a quantifier. */
  predicate StartsAnchored(n: Node)
  {
    match n
    case Concatenation(left, _) => StartsAnchored(left)
    case Alternation(left, right) => StartsAnchored(left) && StartsAnchored(right)
    case Quantifier(nmin, _, _, q) => nmin > 0 && StartsAnchored(q)
    case AnchorBegin => true
    case Capture(q) => StartsAnchored(q)
    case _ => false
  }

  lemma {:induction false} StartsAnchoredMatches(n: Node, s: string, i: nat, j: nat)
    requires WellFormed(n) && StartsAnchored(n) && Matches(n, s, i, j)
    ensures i == 0
  {
    LanguageParts(n, s);
    assert Language(n, s)(i, j);
    match n
    case Concatenation(left, right) =>
      var k: nat :| Language(left, s)(i, k) && Language(right, s)(k, j);
      StartsAnchoredMatches(left, s, i, k);
    case Alternation(left, right) =>
      if Language(left, s)(i, j) {
        StartsAnchoredMatches(left, s, i, j);
      } else {
        StartsAnchoredMatches(right, s, i, j);
      }
    case Quantifier(nmin, nmax, _, q) =>
      var k: nat :| nmin <= k && Repeats(Language(q, s), i, j, k);
      var m := RepeatsFirst(Language(q, s), i, j, k);
      StartsAnchoredMatches(q, s, i, m);
    case Capture(q) => StartsAnchoredMatches(q, s, i, j);
    case _ =>
  }

  /** No optional quantifier stands over the anchor that makes the compiler omit the search
      prefix, so that omitting it is sound. */
  predicate AnchorsForced(n: Node)
  {
    NodeIsAnchored(n) ==> StartsAnchored(n)
  }

  /** Some quantifier allows no repetition at all. */
  predicate HasOptional(n: Node)
  {
    match n
    case Concatenation(left, right) => HasOptional(left) || HasOptional(right)
    case Alternation(left, right) => HasOptional(left) || HasOptional(right)
    case Quantifier(nmin, _, _, q) => nmin == 0 || HasOptional(q)
    case Capture(q) => HasOptional(q)
    case _ => false
  }

  /** The compiler is right about the anchor whenever there is nothing optional in the pattern, and never
      misses an anchor that is forced. */
  lemma {:induction false} AnchoredUnlessOptional(n: Node)
    requires WellFormed(n)
    ensures StartsAnchored(n) ==> NodeIsAnchored(n)
    ensures !HasOptional(n) ==> (NodeIsAnchored(n) <==> StartsAnchored(n)) && AnchorsForced(n)
  {
    match n
    case Concatenation(left, right) => AnchoredUnlessOptional(left);
    case Alternation(left, right) => AnchoredUnlessOptional(left); AnchoredUnlessOptional(right);
    case Quantifier(_, _, _, q) => AnchoredUnlessOptional(q);
    case Capture(q) => AnchoredUnlessOptional(q);
    case _ =>
  }

  /** Compiler and machine together decide whether the pattern occurs in the subject. */
  lemma SearchFindsOccurrence(n: Node, s: string, width: nat)
    requires WellFormed(n) && SevenBit(s) && AnchorsForced(n)
    ensures Search(n, s, width).Some? <==> exists i: nat, j: nat :: Occurs(n, s, i, j)
  {
    SearchDecides(n, s, width);
    forall i: nat, j: nat ensures Occurs(n, s, i, j) <==> Sought(n, s, i, j) {
      if Occurs(n, s, i, j) && NodeIsAnchored(n) {
        StartsAnchoredMatches(n, s, i, j);
      }
    }
  }

  ghost predicate Occurs(n: Node, s: string, i: nat, j: nat)
    requires WellFormed(n)
  {
    i <= j <= |s| && Matches(n, s, i, j)
  }

  /** Exactly when an occurrence is missed: the tree is taken to be anchored, and has matches, but none
      at the start of the subject. */
  lemma MissedExactly(n: Node, s: string, width: nat)
    requires WellFormed(n) && SevenBit(s) && exists i: nat, j: nat :: Occurs(n, s, i, j)
    ensures Search(n, s, width).None? <==> NodeIsAnchored(n) && forall j: nat :: !Occurs(n, s, 0, j)
  {
    hide Search, Matches, NodeIsAnchored;
    SearchDecides(n, s, width);
    forall i: nat, j: nat ensures Sought(n, s, i, j) <==> Occurs(n, s, i, j) && (NodeIsAnchored(n) ==> i == 0) {}
  }

  lemma OptionalAnchorOccurs()
    ensures WellFormed(OPTIONAL_ANCHOR) && Matches(OPTIONAL_ANCHOR, "xb", 1, 2)
  {
    var s, n := "xb", OPTIONAL_ANCHOR;
    var q := n.left.quantified;
    LanguageParts(n, s);
    LanguageParts(n.left, s);
    assert Repeats(Language(q, s), 1, 1, 0);
    assert Language(n.left, s)(1, 1) && Language(n.right, s)(1, 2);
    assert Language(n, s)(1, 2);
  }

  lemma OptionalAnchorNotAtStart(j: nat)
    ensures WellFormed(OPTIONAL_ANCHOR) && !Matches(OPTIONAL_ANCHOR, "xb", 0, j)
  {
    var s, n := "xb", OPTIONAL_ANCHOR;
    LanguageParts(n, s);
    forall k: nat ensures !(Language(n.left, s)(0, k) && Language(n.right, s)(k, j)) {
      OptionalPartEmpty(k);
    }
    assert !Language(n, s)(0, j);
  }

  lemma OptionalPartEmpty(k: nat)
    ensures WellFormed(OPTIONAL_ANCHOR.left) && (Language(OPTIONAL_ANCHOR.left, "xb")(0, k) ==> k == 0)
  {
    var s, n := "xb", OPTIONAL_ANCHOR.left;
    var q := n.quantified;
    LanguageParts(n, s);
    LanguageParts(q, s);
    LanguageParts(q.captured, s);
    assert forall h: nat :: !(Language(AnchorBegin, s)(0, h) && Language(Character('a'), s)(h, k));
    assert !Language(q, s)(0, k);
    RepeatsOnce(Language(q, s), 0, k);
  }

  /** The hypothesis is needed: `(^a)?b` occurs in "xb" and is not found. */
  lemma OptionalAnchorMissed(width: nat)
    ensures WellFormed(OPTIONAL_ANCHOR) && SevenBit("xb") && !AnchorsForced(OPTIONAL_ANCHOR)
    ensures ParseFrom("(^a)?b", 0, 0, []) == Done(7, OPTIONAL_ANCHOR) && Fold(OPTIONAL_ANCHOR) == OPTIONAL_ANCHOR
    ensures Occurs(OPTIONAL_ANCHOR, "xb", 1, 2) && Search(OPTIONAL_ANCHOR, "xb", width).None?
  {
    hide Search, Matches, ParseFrom, Fold;
    OptionalAnchorParses();
    OptionalAnchorOccurs();
    SearchDecides(OPTIONAL_ANCHOR, "xb", width);
    forall j: nat ensures !Matches(OPTIONAL_ANCHOR, "xb", 0, j) { OptionalAnchorNotAtStart(j); }
    assert NodeIsAnchored(OPTIONAL_ANCHOR);
  }

  // ----- The reported span -----

  /** A path through saved code is a path through the code between the two saves. */
  lemma SavedPath(p: Program, s: string, body: seq<Instr>, nc: nat, c: Config, d: Config, m: nat) returns (via: Config)
    requires SevenBit(s) && c.i <= |s| && Placed(p, c.pc, Saved(body, nc)) && Enclosed(body, c.pc + 1)
    requires d.pc == c.pc + 2 + |body| && Exits(p, s, c, d, m)
    ensures via.pc == c.pc + 1 + |body| && c.i <= via.i <= |s| && m > 0
    ensures Exits(p, s, Config(c.pc + 1, c.i, Store(c.slots, 2 * nc, c.i)), via, m - 1)
    ensures d == Config(d.pc, via.i, Store(via.slots, 2 * nc + 1, via.i))
  {
    hide Exits, Placed, Enclosed, Fragment;
    SavedParts(p, c.pc, body, nc);
    PlacedFragment(p, c.pc + 1, body);
    var e := Config(c.pc + 1, c.i, Store(c.slots, 2 * nc, c.i));
    var b := ExitsStep(p, s, c, d, m);
    assert Step(p, s, c, b) == Some(e);
    var k;
    via, k := ExitsSplit(p, s, c.pc + 1, c.pc + 1 + |body|, e, d, m - 1);
    var f := Config(d.pc, via.i, Store(via.slots, 2 * nc + 1, via.i));
    b := ExitsStep(p, s, via, d, k);
    assert Step(p, s, via, b) == Some(f);
    ExitsEnd(p, s, f, d, k - 1);
  }

  /** A path through the capture of the whole match spells a match and records its two ends. */
  lemma WholeCapture(n: Node, p: Program, s: string, c: Config, d: Config, m: nat)
    requires WellFormed(n) && SevenBit(s) && c.i <= |s|
    requires Placed(p, c.pc, Saved(Code(n, c.pc + 1, 1), 0))
    requires d.pc == c.pc + 2 + |Code(n, c.pc + 1, 1)| && Exits(p, s, c, d, m)
    ensures c.i <= d.i <= |s| && Matches(n, s, c.i, d.i) && |d.slots| == |c.slots|
    ensures |c.slots| > 0 ==> d.slots[0] == Some(c.i)
    ensures |c.slots| > 1 ==> d.slots[1] == Some(d.i)
  {
    hide Exits, Enclosed, Code, Matches;
    CodeEnclosed(n, c.pc + 1, 1);
    var via := SavedPath(p, s, Code(n, c.pc + 1, 1), 0, c, d, m);
    SavedParts(p, c.pc, Code(n, c.pc + 1, 1), 0);
    BodyPath(n, p, s, Config(c.pc + 1, c.i, Store(c.slots, 0, c.i)), via, m - 1);
  }

  lemma BodyPath(n: Node, p: Program, s: string, c: Config, d: Config, m: nat)
    requires WellFormed(n) && SevenBit(s) && c.i <= |s|
    requires Placed(p, c.pc, Code(n, c.pc, 1)) && d.pc == c.pc + |Code(n, c.pc, 1)| && Exits(p, s, c, d, m)
    ensures Matches(n, s, c.i, d.i)
    ensures |d.slots| == |c.slots| && (|c.slots| > 0 ==> d.slots[0] == c.slots[0])
  {
    hide Exits, Code, Matches, Enclosed, Fragment;
    CodeEnclosed(n, c.pc, 1);
    PlacedFragment(p, c.pc, Code(n, c.pc, 1));
    CodeImplements(n, p, c.pc, 1, s);
    assert Reaches(p, s, c, d.pc, d.i);
    assert Language(n, s)(c.i, d.i);
    WholeCaptureSlots(n, p, s, c, d, m);
  }

  lemma WholeCaptureSlots(n: Node, p: Program, s: string, c: Config, d: Config, m: nat)
    requires WellFormed(n) && SevenBit(s) && Fragment(p, c.pc, d.pc)
    requires Placed(p, c.pc, Code(n, c.pc, 1)) && d.pc == c.pc + |Code(n, c.pc, 1)| && Exits(p, s, c, d, m)
    ensures |d.slots| == |c.slots| && (|c.slots| > 0 ==> d.slots[0] == c.slots[0])
  {
    hide Exits, Code, CapturesAfter;
    CodeSaves(n, c.pc, 1);
    forall q | c.pc <= q < d.pc ensures p[q] != Save(0) {
      PlacedAt(p, c.pc, Code(n, c.pc, 1), q - c.pc);
    }
    if |c.slots| > 0 {
      ExitsKeepsSlot(p, s, c.pc, c, d, m, 0);
    } else {
      ExitsWidth(p, s, c, d, m);
    }
  }

  lemma {:induction false} ExitsWidth(p: Program, s: string, c: Config, d: Config, m: nat)
    requires SevenBit(s) && Exits(p, s, c, d, m)
    ensures |d.slots| == |c.slots|
    decreases m
  {
    if c.pc != d.pc {
      var b :| Step(p, s, c, b).Some? && Exits(p, s, Step(p, s, c, b).value, d, m - 1);
      ExitsWidth(p, s, Step(p, s, c, b).value, d, m - 1);
    }
  }

  /** The program starts with the search prefix, which is never entered again from what follows. */
  ghost predicate Searching(p: Program)
  {
    && Linked(p) && |p| > 3
    && p[0] == Split(3, 1) && p[1] == Any && p[2] == Jump(0)
    && Above(p, 3)
  }

  /** The search prefix tries the start positions from left to right: when the match found starts
      at `k`, no earlier position could have led to one. */
  lemma {:induction false} LeftmostScan(p: Program, s: string, i: nat, slots: Slots, memo: Memo)
    returns (k: nat, j: nat, m: nat)
    requires Searching(p) && SevenBit(s)
    requires i <= |s| && |memo| == |s| + 1 - i && ValidMemo(p, memo) && AllDead(p, s, 3, i, memo)
    requires Backtrack(p, s, 0, i, slots, memo).found.Some?
    ensures i <= k <= j <= |s|
    ensures Exits(p, s, Config(3, k, slots), Config(|p| - 1, j, Backtrack(p, s, 0, i, slots, memo).found.value), m)
    ensures forall h :: i <= h < k ==> Dead(p, s, 3, h)
    decreases |s| - i
  {
    var m0 := memo[0 := memo[0] + {0}];
    var r := Backtrack(p, s, 3, i, slots, m0);
    if r.found.Some? {
      j, m := BacktrackSound(p, s, 3, i, slots, m0);
      k := i;
    } else {
      FailureDead(p, s, 3, 3, i, slots, m0);
      k, j, m := LeftmostNext(p, s, i, slots, r.memo);
    }
  }

  /** The `.` of the search prefix: on to the next start position. */
  lemma {:induction false} LeftmostNext(p: Program, s: string, i: nat, slots: Slots, memo: Memo)
    returns (k: nat, j: nat, m: nat)
    requires Searching(p) && SevenBit(s) && i <= |s| && Dead(p, s, 3, i)
    requires |memo| == |s| + 1 - i && ValidMemo(p, memo) && AllDead(p, s, 3, i, memo)
    requires Backtrack(p, s, 1, i, slots, memo).found.Some?
    ensures i < k <= j <= |s|
    ensures Exits(p, s, Config(3, k, slots), Config(|p| - 1, j, Backtrack(p, s, 1, i, slots, memo).found.value), m)
    ensures forall h :: i <= h < k ==> Dead(p, s, 3, h)
    decreases |s| - i, 0
  {
    var later := memo[0 := memo[0] + {1}][1..];
    var m2 := later[0 := later[0] + {2}];
    forall q, pc | 0 <= q < |m2| && pc in m2[q] && 3 <= pc ensures Dead(p, s, pc, i + 1 + q) {
      assert m2[q] == later[q] || q == 0;
      assert memo[q + 1] == later[q] && pc in memo[q + 1];
      assert Dead(p, s, pc, i + (q + 1));
    }
    k, j, m := LeftmostScan(p, s, i + 1, slots, m2);
  }

  /** The span a successful search reports. */
  ghost predicate Reported(n: Node, s: string, slots: Slots, i: nat, j: nat)
    requires WellFormed(n)
  {
    && Sought(n, s, i, j)
    && (|slots| > 0 ==> slots[0] == Some(i))
    && (|slots| > 1 ==> slots[1] == Some(j))
  }

  /** A successful run reports a match whose start is the leftmost possible. */
  lemma SearchLeftmost(n: Node, s: string, width: nat) returns (i: nat, j: nat)
    requires WellFormed(n) && SevenBit(s) && Search(n, s, width).Some?
    ensures Reported(n, s, Search(n, s, width).value, i, j)
    ensures forall h: nat, k: nat :: Sought(n, s, h, k) ==> i <= h
  {
    hide Backtrack, Matches, NodeIsAnchored, Assemble, Dead, Exits, Code;
    var p := Assemble(n);
    AssembleLinked(n);
    var base := if NodeIsAnchored(n) then 0 else 3;
    var m: nat;
    AssembleParts(n);
    if NodeIsAnchored(n) {
      i := 0;
      j, m := BacktrackSound(p, s, 0, 0, Blank(width), FreshMemo(s));
    } else {
      i, j, m := LeftmostScan(p, s, 0, Blank(width), FreshMemo(s));
      forall h: nat, k: nat | Sought(n, s, h, k) ensures i <= h {
        if h < i { NotDead(n, p, s, h, k); }
      }
    }
    WholeCapture(n, p, s, Config(base, i, Blank(width)), Config(|p| - 1, j, Search(n, s, width).value), m);
  }

  /** The layout of an assembled program. */
  lemma AssembleParts(n: Node)
    requires WellFormed(n)
    ensures
      var p, base := Assemble(n), if NodeIsAnchored(n) then 0 else 3;
      && Placed(p, base, Saved(Code(n, base + 1, 1), 0))
      && |p| == base + 3 + |Code(n, base + 1, 1)|
      && (!NodeIsAnchored(n) ==> Searching(p))
  {
    hide Linked, Enclosed, Code;
    var base := if NodeIsAnchored(n) then 0 else 3;
    var whole := Capture(n);
    CaptureCode(whole, base, 0);
    AssembleLinked(n);
    if NodeIsAnchored(n) {
      var code := Code(whole, 0, 0);
      assert Assemble(n)[0..|code|] == code;
    } else {
      SearchCode();
      CodeEnclosed(whole, 3, 0);
      ConcatenationCode(Prefixed(n), 0, 0);
      assert Code(Prefixed(n), 0, 0) == SEARCH_CODE + Code(whole, 3, 0);
      SearchingLayout(Code(whole, 3, 0));
    }
  }

  lemma SearchingLayout(code: seq<Instr>)
    requires Enclosed(code, 3) && Linked(SEARCH_CODE + code + [Match])
    ensures Searching(SEARCH_CODE + code + [Match]) && Placed(SEARCH_CODE + code + [Match], 3, code)
  {
    var p := SEARCH_CODE + code + [Match];
    assert p[3..3 + |code|] == code;
    PlacedFragment(p, 3, code);
  }

  const SEARCH_CODE: seq<Instr> := [Split(3, 1), Any, Jump(0)]

  lemma SearchCode()
    ensures Code(SEARCH, 0, 0) == SEARCH_CODE && CapturesAfter(SEARCH, 0) == 0
  {
    assert CodeOf(AnyCharacter, 0)(1) == [Any];
    assert StarLoop(CodeOf(AnyCharacter, 0), 0, false) == SEARCH_CODE;
  }

  /** A position at which the pattern matches is not dead. */
  lemma NotDead(n: Node, p: Program, s: string, i: nat, j: nat)
    requires WellFormed(n) && SevenBit(s) && p == Assemble(n) && !NodeIsAnchored(n) && Sought(n, s, i, j)
    ensures !Dead(p, s, 3, i)
  {
    hide Code, Assemble, Enclosed, Placed;
    AssembleParts(n);
    var body := Code(n, 4, 1);
    SavedParts(p, 3, body, 0);
    CodeImplements(n, p, 4, 1, s);
    CodeEnclosed(n, 4, 1);
    SavedImplements(p, s, 3, body, 0, Language(n, s));
    var c := Config(3, i, []);
    assert Language(n, s)(i, j);
    assert Reaches(p, s, c, |p| - 1, j);
  }
}
