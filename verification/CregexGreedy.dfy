/** What preference means for the end of a match: a greedy quantifier over single characters takes as many as
    it can, a lazy one as few. And why loops over the empty string are left out of it. */
module CregexGreedy {
  import opened Wrappers
  import opened Cregex
  import opened CregexSemantics
  import opened CregexBacktrack
  import opened CregexCode
  import opened CregexGrammar
  import opened CregexDerivation
  import opened CregexProgram
  import opened CregexCycles
  import opened CregexFirst
  import opened CregexGroups

  /** Preferred to all other derivations from the same place. */
  ghost predicate Best(n: Node, s: string, i: nat, d: Derivation)
    requires WellFormed(n)
  {
    Follow(n, s, d, i).Some? && forall d' :: Follow(n, s, d', i).Some? ==> Prefers(n, d, d')
  }

  /** The match that a run reports for a steady tree. */
  lemma ChosenBest(n: Node, s: string, width: nat, i: nat, d: Derivation)
    requires WellFormed(n) && SevenBit(s) && Steady(n) && Chosen(n, s, width, i, d)
    ensures Best(n, s, i, d)
  {
    hide Follow, Prefers, Once, Steady;
    forall d' | Follow(n, s, d', i).Some? ensures Prefers(n, d, d') {
      assert Candidate(n, s, i, d');
      assert Beats(n, i, d, i, d');
    }
  }

  /** The last item of a sequence. */
  function LastItem(n: Node): Node
  {
    if n.Concatenation? then LastItem(n.right) else n
  }

  /** What follows the first item of a sequence is matched in the preferred way, too. */
  lemma {:induction false} BestTail(n: Node, s: string, i: nat, d: Derivation) returns (k: nat, last: Derivation)
    requires WellFormed(n) && i <= |s| && Best(n, s, i, d)
    ensures WellFormed(LastItem(n)) && i <= k <= |s|
    ensures Best(LastItem(n), s, k, last) && Follow(LastItem(n), s, last, k) == Follow(n, s, d, i)
    decreases n
  {
    if n.Concatenation? {
      var m := Follow(n.left, s, d.first, i).value;
      FollowForward(n.left, s, d.first, i);
      forall b | Follow(n.right, s, b, m).Some? ensures Prefers(n.right, d.second, b) {
        assert Prefers(n, d, Both(d.first, b));
      }
      k, last := BestTail(n.right, s, m, d.second);
    } else {
      k, last := i, d;
    }
  }

  predicate OneCharacter(n: Node)
  {
    n.Character? || n.AnyCharacter? || n.CharacterClass?
  }

  /** `c` passes over a character each, the rest skipped. */
  function Canonical(n: Node, c: nat, k: nat): Passes
    requires n.Quantifier?
    decreases c
  {
    if c > 0 then Pass(Leaf, Canonical(n, c - 1, k + 1)) else if n.nmax > k then Skips(n.nmax - k) else Over
  }

  lemma {:induction false} OneRepeats(q: Node, s: string, i: nat, j: nat, c: nat)
    requires WellFormed(q) && OneCharacter(q) && Repeats(Language(q, s), i, j, c)
    ensures j == i + c && forall h :: i <= h < j ==> LeafEnd(q, s, h) == Some(h + 1)
    decreases c
  {
    if c > 0 {
      var m: nat :| Repeats(Language(q, s), i, m, c - 1) && Language(q, s)(m, j);
      OneRepeats(q, s, i, m, c - 1);
      assert Matches(q, s, m, j);
    }
  }

  lemma {:induction false} CanonicalFollows(n: Node, s: string, c: nat, k: nat, i: nat)
    requires WellFormed(n) && n.Quantifier? && OneCharacter(n.quantified)
    requires forall h :: i <= h < i + c ==> LeafEnd(n.quantified, s, h) == Some(h + 1)
    requires n.nmin <= k + c && (n.nmax == -1 || k + c <= n.nmax)
    ensures FollowPasses(n, s, Canonical(n, c, k), k, i) == Some(i + c)
    decreases c
  {
    hide LeafEnd;
    if c > 0 {
      assert Follow(n.quantified, s, Leaf, i) == LeafEnd(n.quantified, s, i);
      CanonicalFollows(n, s, c - 1, k + 1, i + 1);
    } else if n.nmax > k {
      SkipsFollow(n, s, k, i);
    }
  }

  /** Greedy passes that are preferred to `c` passes are at least as many. */
  lemma {:induction false} GreedyPasses(n: Node, s: string, ps: Passes, c: nat, k: nat, i: nat)
    requires WellFormed(n) && n.Quantifier? && n.greedy && OneCharacter(n.quantified) && i <= |s|
    requires FollowPasses(n, s, ps, k, i).Some? && PrefersPasses(n, ps, Canonical(n, c, k))
    ensures FollowPasses(n, s, ps, k, i).value >= i + c
    decreases c
  {
    if c == 0 {
      PassesForward(n, s, ps, k, i);
    } else {
      GreedyPasses(n, s, ps.rest, c - 1, k + 1, i + 1);
    }
  }

  /** Lazy passes that are preferred to the least number are that number. */
  lemma {:induction false} LazyPasses(n: Node, s: string, ps: Passes, c: nat, k: nat, i: nat)
    requires WellFormed(n) && n.Quantifier? && !n.greedy && OneCharacter(n.quantified) && c + k == n.nmin
    requires FollowPasses(n, s, ps, k, i).Some? && PrefersPasses(n, ps, Canonical(n, c, k))
    ensures FollowPasses(n, s, ps, k, i) == Some(i + c)
    decreases c
  {
    if c == 0 {
      LazyRest(n, s, ps, k, i);
    } else {
      LazyPasses(n, s, ps.rest, c - 1, k + 1, i + 1);
    }
  }

  lemma {:induction false} LazyRest(n: Node, s: string, ps: Passes, k: nat, i: nat)
    requires WellFormed(n) && n.Quantifier? && !n.greedy && k >= n.nmin
    requires FollowPasses(n, s, ps, k, i).Some? && PrefersPasses(n, ps, Canonical(n, 0, k))
    ensures FollowPasses(n, s, ps, k, i) == Some(i)
    decreases ps
  {
    if ps.Skip? { LazyRest(n, s, ps.rest, k + 1, i); }
  }

  /** The preferred match of a quantifier over single characters: the longest when it is greedy, and the
      shortest when it is lazy. */
  lemma QuantifierEnd(n: Node, s: string, i: nat, d: Derivation)
    requires WellFormed(n) && n.Quantifier? && OneCharacter(n.quantified) && i <= |s| && Best(n, s, i, d)
    ensures
      var j := Follow(n, s, d, i).value;
      Language(n, s)(i, j) && forall j': nat :: Language(n, s)(i, j') ==> if n.greedy then j' <= j else j <= j'
  {
    var j, r := Follow(n, s, d, i).value, Language(n.quantified, s);
    FollowMatches(n, s, d, i);
    LanguageParts(n, s);
    forall j': nat | Language(n, s)(i, j') ensures if n.greedy then j' <= j else j <= j' {
      var c: nat :| n.nmin <= c && (n.nmax == -1 || c <= n.nmax) && Repeats(r, i, j', c);
      OneRepeats(n.quantified, s, i, j', c);
      var least := if n.greedy then c else n.nmin;
      CanonicalFollows(n, s, least, 0, i);
      assert Prefers(n, d, Several(Canonical(n, least, 0)));
      if n.greedy { GreedyPasses(n, s, d.passes, c, 0, i); } else { LazyPasses(n, s, d.passes, n.nmin, 0, i); }
    }
  }

  /** A run on a pattern that ends in a quantifier over single characters: from where that begins, the match
      ends as far right as possible when it is greedy, and as far left when it is lazy. */
  lemma ReportedEnd(n: Node, s: string, width: nat) returns (i: nat, k: nat, j: nat)
    requires WellFormed(n) && SevenBit(s) && Steady(n) && Search(n, s, width).Some? && width > 1
    requires LastItem(n).Quantifier? && OneCharacter(LastItem(n).quantified)
    ensures Search(n, s, width).value[0] == Some(i) && Search(n, s, width).value[1] == Some(j) && i <= k <= j <= |s|
    ensures WellFormed(LastItem(n)) && Language(LastItem(n), s)(k, j)
    ensures forall j': nat :: Language(LastItem(n), s)(k, j') ==> if LastItem(n).greedy then j' <= j else j <= j'
  {
    hide Search, Follow, Prefers, Once, Steady, Captured;
    var d;
    i, d := FirstDerivation(n, s, width);
    ChosenBest(n, s, width, i, d);
    var last;
    k, last := BestTail(n, s, i, d);
    j := Follow(n, s, d, i).value;
    FollowForward(LastItem(n), s, last, k);
    QuantifierEnd(LastItem(n), s, k, last);
    EndsReported(n, s, i, d, width);
  }

  lemma EndsReported(n: Node, s: string, i: nat, d: Derivation, width: nat)
    requires WellFormed(n) && Follow(n, s, d, i).Some? && width > 1
    ensures
      var slots := SlotsOf(n, s, i, d, width);
      |slots| == width && slots[0] == Some(i) && slots[1] == Some(Follow(n, s, d, i).value)
  {
    CapturedKeys(n, s, d, 1, i);
  }

  // ----- Folding -----

  /** An alternation with an empty side, and the optional part it is folded into. */
  function OptionOf(n: Node): Node
  {
    Quantifier(0, 1, true, n)
  }

  /** The derivation of the optional part that makes the same choice. */
  function AsOption(d: Derivation): Derivation
  {
    if d.Either? && d.left then Several(Pass(d.chosen, Over)) else Several(Skip(Over))
  }

  lemma OptionForms(l: Node, s: string, i: nat, e: Derivation)
    requires WellFormed(l) && WellFormed(OptionOf(l)) && Follow(OptionOf(l), s, e, i).Some?
    ensures e == Several(Skip(Over)) || (e.Several? && e.passes.Pass? && e == Several(Pass(e.passes.made, Over)))
  {
    hide LeafEnd;
    var ps := e.passes;
    assert FollowPasses(OptionOf(l), s, ps, 0, i).Some?;
    if ps.Pass? {
      AllMade(OptionOf(l), s, ps.rest, Follow(l, s, ps.made, i).value);
    } else {
      AllMade(OptionOf(l), s, ps.rest, i);
    }
  }

  lemma AllMade(q: Node, s: string, ps: Passes, i: nat)
    requires WellFormed(q) && q.Quantifier? && q.nmax == 1 && FollowPasses(q, s, ps, 1, i).Some?
    ensures ps == Over
  {
  }

  lemma AlternativeForms(l: Node, s: string, i: nat, e: Derivation)
    requires WellFormed(Alternation(l, Epsilon)) && Follow(Alternation(l, Epsilon), s, e, i).Some?
    ensures e.Either? && (!e.left ==> e.chosen == Leaf)
  {
  }

  /** The choices correspond, and so do the ends they lead to. */
  lemma SameChoice(l: Node, s: string, i: nat, e: Derivation)
    requires WellFormed(l) && e.Either? && (!e.left ==> e.chosen == Leaf)
    ensures
      var n, q := Alternation(l, Epsilon), OptionOf(l);
      WellFormed(n) && WellFormed(q) && Follow(q, s, AsOption(e), i) == Follow(n, s, e, i)
  {
    var n, q := Alternation(l, Epsilon), OptionOf(l);
    assert WellFormed(Epsilon) && WellFormed(n) && WellFormed(q);
    if e.left {
      assert FollowPasses(q, s, Pass(e.chosen, Over), 0, i) == Follow(l, s, e.chosen, i);
    } else {
      assert FollowPasses(q, s, Skip(Over), 0, i) == Some(i) == Follow(Epsilon, s, Leaf, i);
    }
  }

  lemma SamePreference(l: Node, s: string, i: nat, a: Derivation, b: Derivation)
    requires WellFormed(Alternation(l, Epsilon)) && WellFormed(l)
    requires Follow(Alternation(l, Epsilon), s, a, i).Some? && Follow(Alternation(l, Epsilon), s, b, i).Some?
    ensures Prefers(Alternation(l, Epsilon), a, b) == Prefers(OptionOf(l), AsOption(a), AsOption(b))
  {
    AlternativeForms(l, s, i, a);
    AlternativeForms(l, s, i, b);
    if a.left && b.left && a.chosen == b.chosen { PrefersSelf(l, s, a.chosen, i); }
    assert PrefersPasses(OptionOf(l), Over, Over);
  }

  /** An alternation whose second side is empty is folded into an optional part with the same preference. */
  lemma EmptyRightKept(l: Node, s: string, i: nat, d: Derivation)
    requires WellFormed(l) && !l.Epsilon? && WellFormed(Alternation(l, Epsilon)) && WellFormed(OptionOf(l))
    requires Follow(Alternation(l, Epsilon), s, d, i).Some?
    ensures FoldAlternation(l, Epsilon) == OptionOf(l)
    ensures Best(Alternation(l, Epsilon), s, i, d) <==> Best(OptionOf(l), s, i, AsOption(d))
  {
    hide Prefers, Follow, WellFormed;
    var n, q := Alternation(l, Epsilon), OptionOf(l);
    AlternativeForms(l, s, i, d);
    SameChoice(l, s, i, d);
    if Best(n, s, i, d) {
      forall e | Follow(q, s, e, i).Some? ensures Prefers(q, AsOption(d), e) {
        OptionForms(l, s, i, e);
        var e' := if e.passes.Pass? then Either(true, e.passes.made) else Either(false, Leaf);
        SameChoice(l, s, i, e');
        SamePreference(l, s, i, d, e');
      }
    }
    if Best(q, s, i, AsOption(d)) {
      forall e | Follow(n, s, e, i).Some? ensures Prefers(n, d, e) {
        AlternativeForms(l, s, i, e);
        SameChoice(l, s, i, e);
        SamePreference(l, s, i, d, e);
      }
    }
  }

  /** One whose first side is empty is folded into the same; but the empty side was preferred, and the folded
      tree prefers the other whenever it can match. */
  lemma EmptyLeftTurned(r: Node, s: string, i: nat, d: Derivation, x: Derivation)
    requires WellFormed(r) && !r.Epsilon? && Follow(r, s, x, i).Some?
    ensures FoldAlternation(Epsilon, r) == OptionOf(r) && WellFormed(Alternation(Epsilon, r)) && WellFormed(OptionOf(r))
    ensures Best(Alternation(Epsilon, r), s, i, Either(true, Leaf))
    ensures Best(OptionOf(r), s, i, d) ==> d.Several? && d.passes.Pass?
  {
    var n, q := Alternation(Epsilon, r), OptionOf(r);
    assert WellFormed(Epsilon) && WellFormed(n) && WellFormed(q);
    assert Follow(n, s, Either(true, Leaf), i) == Some(i);
    forall e | Follow(n, s, e, i).Some? ensures Prefers(n, Either(true, Leaf), e) {}
    SameChoice(r, s, i, Either(true, x));
    if Best(q, s, i, d) {
      OptionForms(r, s, i, d);
      assert Prefers(q, d, Several(Pass(x, Over)));
    }
  }

  // ----- Loops over the empty string -----

  /** One more empty pass after the last. */
  function OneMore(ps: Passes, e: Derivation): Passes
  {
    match ps
    case Over => Pass(e, Over)
    case Pass(made, rest) => Pass(made, OneMore(rest, e))
    case Skip(rest) => Skip(OneMore(rest, e))
  }

  lemma {:induction false} OneMoreFollows(n: Node, s: string, ps: Passes, e: Derivation, k: nat, i: nat)
    requires WellFormed(n) && n.Quantifier? && n.nmax == -1 && n.greedy && FollowPasses(n, s, ps, k, i).Some?
    requires forall h: nat :: Follow(n.quantified, s, e, h) == Some(h)
    ensures FollowPasses(n, s, OneMore(ps, e), k, i) == FollowPasses(n, s, ps, k, i)
    ensures PrefersPasses(n, OneMore(ps, e), ps) && !PrefersPasses(n, ps, OneMore(ps, e))
    decreases ps
  {
    if ps.Pass? { OneMoreFollows(n, s, ps.rest, e, k + 1, Follow(n.quantified, s, ps.made, i).value); }
  }

  /** A greedy loop over something that matches the empty string everywhere has no preferred derivation: there
      is always one with one pass more. So the machine, which stops, cannot report it. */
  lemma NoneBest(n: Node, s: string, i: nat, d: Derivation, e: Derivation)
    requires WellFormed(n) && n.Quantifier? && n.nmax == -1 && n.greedy
    requires forall h: nat :: Follow(n.quantified, s, e, h) == Some(h)
    ensures !Steady(n) && !Best(n, s, i, d)
  {
    ConsumesNothing(n.quantified, s, e);
    if Follow(n, s, d, i).Some? {
      OneMoreFollows(n, s, d.passes, e, 0, i);
      assert Follow(n, s, Several(OneMore(d.passes, e)), i).Some?;
      assert !Prefers(n, d, Several(OneMore(d.passes, e)));
    }
  }

  lemma ConsumesNothing(q: Node, s: string, e: Derivation)
    requires WellFormed(q) && Follow(q, s, e, 0) == Some(0)
    ensures Nullable(q)
  {
    if !Nullable(q) { ConsumesSome(q, s, e, 0); }
  }
}
