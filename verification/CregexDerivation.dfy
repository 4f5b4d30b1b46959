/** Ways to match a tree, and which of them is preferred: a derivation says which alternative is taken and
    how often each quantifier repeats its body. Nothing here mentions programs. */
module CregexDerivation {
  import opened Wrappers
  import opened Cregex
  import opened CregexSemantics
  import opened CregexCode

  datatype Derivation =
    | Leaf
    | Both(first: Derivation, second: Derivation)
    | Either(left: bool, chosen: Derivation)
    | Inner(inner: Derivation)
    | Several(passes: Passes)

  /** The passes of a quantifier, one after the other. The passes of an interval that need not be made can
      be skipped one by one. */
  datatype Passes = Over | Pass(made: Derivation, rest: Passes) | Skip(rest: Passes)

  /** The end of a match of a single character, an anchor or the empty tree. */
  function LeafEnd(n: Node, s: string, i: nat): Option<nat>
    requires WellFormed(n) && IsLeaf(n)
  {
    match n
    case Epsilon => Some(i)
    case Character(ch) => if i < |s| && s[i] == ch then Some(i + 1) else None
    case AnyCharacter => if i < |s| then Some(i + 1) else None
    case CharacterClass(negated, from, _) =>
      if i < |s| && (InItems(ClassItems(from), s[i]) <==> !negated) then Some(i + 1) else None
    case AnchorBegin => if i == 0 then Some(i) else None
    case AnchorEnd => if i == |s| then Some(i) else None
  }

  /** Where the derivation leads from position `i`, if it is one of the tree. */
  function Follow(n: Node, s: string, d: Derivation, i: nat): Option<nat>
    requires WellFormed(n)
    decreases d
  {
    match d
    case Leaf => if IsLeaf(n) then LeafEnd(n, s, i) else None
    case Both(first, second) =>
      if !n.Concatenation? then None
      else
        var k := Follow(n.left, s, first, i);
        if k.None? then None else Follow(n.right, s, second, k.value)
    case Either(left, chosen) =>
      if !n.Alternation? then None else Follow(if left then n.left else n.right, s, chosen, i)
    case Inner(inner) => if n.Capture? then Follow(n.captured, s, inner, i) else None
    case Several(passes) => if n.Quantifier? then FollowPasses(n, s, passes, 0, i) else None
  }

  /** The passes from number `k` on. */
  function FollowPasses(n: Node, s: string, ps: Passes, k: nat, i: nat): Option<nat>
    requires WellFormed(n) && n.Quantifier?
    decreases ps
  {
    match ps
    case Over => if (if n.nmax == -1 then n.nmin <= k else k == n.nmax) then Some(i) else None
    case Pass(made, rest) =>
      if n.nmax != -1 && n.nmax <= k then None
      else
        var m := Follow(n.quantified, s, made, i);
        if m.None? then None else FollowPasses(n, s, rest, k + 1, m.value)
    case Skip(rest) =>
      if n.nmax != -1 && n.nmin <= k < n.nmax then FollowPasses(n, s, rest, k + 1, i) else None
  }

  // ----- Preference -----

  /** `a` is `b`, or preferred to it: where they first part, `a` takes the left alternative, or makes a pass
      of a greedy quantifier that `b` does not make, or leaves out one of a lazy quantifier that `b` makes. */
  predicate Prefers(n: Node, a: Derivation, b: Derivation)
    decreases a
  {
    match a
    case Leaf => true
    case Both(x, y) =>
      n.Concatenation? && b.Both? && if x == b.first then Prefers(n.right, y, b.second) else Prefers(n.left, x, b.first)
    case Either(left, x) =>
      n.Alternation? && b.Either? &&
        if left == b.left then Prefers(if left then n.left else n.right, x, b.chosen) else left
    case Inner(x) => n.Capture? && b.Inner? && Prefers(n.captured, x, b.inner)
    case Several(ps) => n.Quantifier? && b.Several? && PrefersPasses(n, ps, b.passes)
  }

  predicate PrefersPasses(n: Node, a: Passes, b: Passes)
    requires n.Quantifier?
    decreases a
  {
    match a
    case Pass(x, rest) =>
      if !b.Pass? then n.greedy
      else if x == b.made then PrefersPasses(n, rest, b.rest)
      else Prefers(n.quantified, x, b.made)
    case Skip(rest) => if b.Pass? then !n.greedy else b.Skip? && PrefersPasses(n, rest, b.rest)
    case Over => if b.Pass? then !n.greedy else b.Over?
  }

  // ----- Captures -----

  /** What is saved along a derivation, by slot: the two ends of the last pass through each group. */
  function Captured(n: Node, s: string, d: Derivation, nc: nat, i: nat): map<nat, nat>
    requires WellFormed(n)
    decreases d
  {
    match d
    case Leaf => map[]
    case Both(first, second) =>
      if !n.Concatenation? || Follow(n.left, s, first, i).None? then map[]
      else
        var k := Follow(n.left, s, first, i).value;
        Captured(n.left, s, first, nc, i) + Captured(n.right, s, second, CapturesAfter(n.left, nc), k)
    case Either(left, chosen) =>
      if !n.Alternation? then map[]
      else if left then Captured(n.left, s, chosen, nc, i)
      else Captured(n.right, s, chosen, CapturesAfter(n.left, nc), i)
    case Inner(inner) =>
      if !n.Capture? || Follow(n.captured, s, inner, i).None? then map[]
      else
        map[2 * nc := i] + Captured(n.captured, s, inner, nc + 1, i)
        + map[2 * nc + 1 := Follow(n.captured, s, inner, i).value]
    case Several(passes) => if n.Quantifier? then CapturedPasses(n, s, passes, nc, i) else map[]
  }

  function CapturedPasses(n: Node, s: string, ps: Passes, nc: nat, i: nat): map<nat, nat>
    requires WellFormed(n) && n.Quantifier?
    decreases ps
  {
    match ps
    case Over => map[]
    case Pass(made, rest) =>
      if Follow(n.quantified, s, made, i).None? then map[]
      else
        Captured(n.quantified, s, made, nc, i)
        + CapturedPasses(n, s, rest, nc, Follow(n.quantified, s, made, i).value)
    case Skip(rest) => CapturedPasses(n, s, rest, nc, i)
  }

  // ----- Derivations and spans -----

  lemma {:induction false} FollowForward(n: Node, s: string, d: Derivation, i: nat)
    requires WellFormed(n) && i <= |s| && Follow(n, s, d, i).Some?
    ensures i <= Follow(n, s, d, i).value <= |s|
    decreases d
  {
    match d
    case Leaf =>
    case Both(first, second) =>
      FollowForward(n.left, s, first, i);
      FollowForward(n.right, s, second, Follow(n.left, s, first, i).value);
    case Either(left, chosen) => FollowForward(if left then n.left else n.right, s, chosen, i);
    case Inner(inner) => FollowForward(n.captured, s, inner, i);
    case Several(passes) => PassesForward(n, s, passes, 0, i);
  }

  lemma {:induction false} PassesForward(n: Node, s: string, ps: Passes, k: nat, i: nat)
    requires WellFormed(n) && n.Quantifier? && i <= |s| && FollowPasses(n, s, ps, k, i).Some?
    ensures i <= FollowPasses(n, s, ps, k, i).value <= |s|
    decreases ps
  {
    match ps
    case Over =>
    case Pass(made, rest) =>
      FollowForward(n.quantified, s, made, i);
      PassesForward(n, s, rest, k + 1, Follow(n.quantified, s, made, i).value);
    case Skip(rest) => PassesForward(n, s, rest, k + 1, i);
  }

  /** A derivation leads over a span that the tree matches. */
  lemma {:induction false} FollowMatches(n: Node, s: string, d: Derivation, i: nat)
    requires WellFormed(n) && Follow(n, s, d, i).Some?
    ensures Language(n, s)(i, Follow(n, s, d, i).value)
    decreases d
  {
    hide Follows, RepeatsWithin;
    LanguageParts(n, s);
    var j := Follow(n, s, d, i).value;
    match d
    case Leaf => assert Matches(n, s, i, j);
    case Both(first, second) =>
      var k := Follow(n.left, s, first, i).value;
      FollowMatches(n.left, s, first, i);
      FollowMatches(n.right, s, second, k);
      FollowsBy(Language(n.left, s), Language(n.right, s), i, k, j);
    case Either(left, chosen) => FollowMatches(if left then n.left else n.right, s, chosen, i);
    case Inner(inner) => FollowMatches(n.captured, s, inner, i);
    case Several(passes) =>
      assert Repeats(Language(n.quantified, s), i, i, 0);
      PassesMatch(n, s, passes, 0, i, i, 0);
  }

  lemma FollowsBy(a: Spans, b: Spans, i: nat, k: nat, j: nat)
    requires a(i, k) && b(k, j)
    ensures Follows(a, b, i, j)
  {
  }

  /** `h` passes were made, of the `k` that were made or skipped. */
  lemma {:induction false} PassesMatch(n: Node, s: string, ps: Passes, k: nat, from: nat, i: nat, h: nat)
    requires WellFormed(n) && n.Quantifier? && FollowPasses(n, s, ps, k, i).Some?
    requires h <= k && (k <= n.nmin || n.nmax == -1 ==> h == k) && (n.nmin <= k ==> n.nmin <= h)
    requires Repeats(Language(n.quantified, s), from, i, h)
    ensures RepeatsWithin(Language(n.quantified, s), from, FollowPasses(n, s, ps, k, i).value, n.nmin, n.nmax)
    decreases ps
  {
    match ps
    case Over =>
    case Pass(made, rest) =>
      var m := Follow(n.quantified, s, made, i).value;
      FollowMatches(n.quantified, s, made, i);
      RepeatsOnce(Language(n.quantified, s), i, m);
      RepeatsJoin(Language(n.quantified, s), from, i, m, h, 1);
      PassesMatch(n, s, rest, k + 1, from, m, h + 1);
    case Skip(rest) => PassesMatch(n, s, rest, k + 1, from, i, h);
  }

  /** Every span that the tree matches has a derivation. */
  lemma {:induction false} MatchFollows(n: Node, s: string, i: nat, j: nat) returns (d: Derivation)
    requires WellFormed(n) && Language(n, s)(i, j)
    ensures Follow(n, s, d, i) == Some(j)
    decreases n, 0
  {
    LanguageParts(n, s);
    match n
    case Concatenation(left, right) =>
      var k: nat :| Language(left, s)(i, k) && Language(right, s)(k, j);
      var a := MatchFollows(left, s, i, k);
      var b := MatchFollows(right, s, k, j);
      d := Both(a, b);
    case Alternation(left, right) =>
      if Language(left, s)(i, j) {
        var a := MatchFollows(left, s, i, j);
        d := Either(true, a);
      } else {
        var b := MatchFollows(right, s, i, j);
        d := Either(false, b);
      }
    case Capture(q) =>
      var a := MatchFollows(q, s, i, j);
      d := Inner(a);
    case Quantifier(nmin, nmax, _, q) =>
      var h: nat :| nmin <= h && (nmax == -1 || h <= nmax) && Repeats(Language(q, s), i, j, h);
      var ps := RepeatsFollow(n, s, i, j, 0, h);
      d := Several(ps);
    case _ =>
      assert Matches(n, s, i, j);
      d := Leaf;
  }

  /** `h` more passes, and then the rest is skipped. */
  lemma {:induction false} RepeatsFollow(n: Node, s: string, i: nat, j: nat, k: nat, h: nat) returns (ps: Passes)
    requires WellFormed(n) && n.Quantifier? && Repeats(Language(n.quantified, s), i, j, h)
    requires n.nmin <= k + h && (n.nmax == -1 || k + h <= n.nmax)
    ensures FollowPasses(n, s, ps, k, i) == Some(j)
    decreases n.quantified, 1, h
  {
    if h == 0 {
      ps := if n.nmax == -1 then Over else Skips(n.nmax - k);
      if n.nmax != -1 { SkipsFollow(n, s, k, i); }
    } else {
      var m := RepeatsFirst(Language(n.quantified, s), i, j, h);
      var d := MatchFollows(n.quantified, s, i, m);
      var rest := RepeatsFollow(n, s, m, j, k + 1, h - 1);
      ps := Pass(d, rest);
    }
  }

  function Skips(k: nat): Passes
  {
    if k == 0 then Over else Skip(Skips(k - 1))
  }

  lemma {:induction false} SkipsFollow(n: Node, s: string, k: nat, i: nat)
    requires WellFormed(n) && n.Quantifier? && n.nmin <= k <= n.nmax
    ensures FollowPasses(n, s, Skips(n.nmax - k), k, i) == Some(i)
    decreases n.nmax - k
  {
    if k < n.nmax { SkipsFollow(n, s, k + 1, i); }
  }

  // ----- Preference is a total order -----

  /** Of two derivations from the same place one is preferred, and both are only if they are the same. */
  lemma {:induction false} PrefersTotal(n: Node, s: string, a: Derivation, b: Derivation, i: nat)
    requires WellFormed(n) && Follow(n, s, a, i).Some? && Follow(n, s, b, i).Some?
    ensures Prefers(n, a, b) || Prefers(n, b, a)
    ensures Prefers(n, a, b) && Prefers(n, b, a) ==> a == b
    decreases a
  {
    match a
    case Leaf =>
    case Both(x, y) =>
      if x == b.first {
        PrefersTotal(n.right, s, y, b.second, Follow(n.left, s, x, i).value);
      } else {
        PrefersTotal(n.left, s, x, b.first, i);
      }
    case Either(left, x) => if left == b.left { PrefersTotal(if left then n.left else n.right, s, x, b.chosen, i); }
    case Inner(x) => PrefersTotal(n.captured, s, x, b.inner, i);
    case Several(ps) => PassesTotal(n, s, ps, b.passes, 0, i);
  }

  lemma {:induction false} PassesTotal(n: Node, s: string, a: Passes, b: Passes, k: nat, i: nat)
    requires WellFormed(n) && n.Quantifier? && FollowPasses(n, s, a, k, i).Some? && FollowPasses(n, s, b, k, i).Some?
    ensures PrefersPasses(n, a, b) || PrefersPasses(n, b, a)
    ensures PrefersPasses(n, a, b) && PrefersPasses(n, b, a) ==> a == b
    decreases a
  {
    if a.Pass? && b.Pass? {
      if a.made == b.made {
        PassesTotal(n, s, a.rest, b.rest, k + 1, Follow(n.quantified, s, a.made, i).value);
      } else {
        PrefersTotal(n.quantified, s, a.made, b.made, i);
      }
    } else if a.Skip? && b.Skip? {
      PassesTotal(n, s, a.rest, b.rest, k + 1, i);
    }
  }
}
