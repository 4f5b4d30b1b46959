/** The code generator preserves meaning: the paths through the code of a tree are exactly the
    spans that the tree matches. */
module CregexCodeCorrect {
  import opened Wrappers
  import opened Cregex
  import opened CregexSemantics
  import opened CregexBacktrack
  import opened CregexPaths
  import opened CregexCode

  // ----- Code placed in a program -----

  /** The code sits in the program from instruction `base` on. */
  predicate Placed(p: Program, base: nat, code: seq<Instr>)
  {
    base + |code| <= |p| && p[base..base + |code|] == code
  }

  lemma PlacedParts(p: Program, base: nat, a: seq<Instr>, b: seq<Instr>)
    requires Placed(p, base, a + b)
    ensures Placed(p, base, a) && Placed(p, base + |a|, b)
  {
    var q := p[base..base + |a + b|];
    assert q[..|a|] == a && q[|a|..] == b;
    assert p[base..base + |a|] == q[..|a|];
    assert p[base + |a|..base + |a| + |b|] == q[|a|..];
  }

  lemma PlacedAt(p: Program, base: nat, code: seq<Instr>, k: nat)
    requires Placed(p, base, code) && k < |code|
    ensures p[base + k] == code[k]
  {
    assert p[base..base + |code|][k] == code[k];
  }

  lemma PlacedFragment(p: Program, base: nat, code: seq<Instr>)
    requires Placed(p, base, code) && Enclosed(code, base)
    ensures Fragment(p, base, base + |code|)
  {
    forall pc | base <= pc < base + |code| ensures Contained(p[pc], base, base + |code|) {
      PlacedAt(p, base, code, pc - base);
    }
  }

  // ----- What a stretch of code implements -----

  /** Some path leads from `c` to instruction `hi` at position `j`. */
  ghost predicate Reaches(p: Program, s: string, c: Config, hi: nat, j: nat)
    requires SevenBit(s)
  {
    exists d: Config, m: nat :: d.pc == hi && d.i == j && Exits(p, s, c, d, m)
  }

  /** The spans over which paths lead from `lo` to `hi` are those of the set. */
  ghost predicate Implements(p: Program, s: string, lo: nat, hi: nat, r: Spans)
    requires SevenBit(s)
  {
    forall c: Config, j: nat :: c.pc == lo && c.i <= |s| ==> (Reaches(p, s, c, hi, j) <==> r(c.i, j))
  }

  lemma {:induction false} ExitsInside(p: Program, s: string, c: Config, d: Config, m: nat)
    requires SevenBit(s) && c.i <= |s| && Exits(p, s, c, d, m)
    ensures c.i <= d.i <= |s|
    decreases m
  {
    if c.pc != d.pc {
      var b :| Step(p, s, c, b).Some? && Exits(p, s, Step(p, s, c, b).value, d, m - 1);
      ExitsInside(p, s, Step(p, s, c, b).value, d, m - 1);
    }
  }

  /** One step before a path, when the instruction can only step to `e`. */
  lemma ReachesStep(p: Program, s: string, c: Config, e: Config, hi: nat, j: nat)
    requires SevenBit(s) && c.pc < |p| && c.pc != hi
    requires forall b: bool :: Step(p, s, c, b) == Some(e)
    ensures Reaches(p, s, c, hi, j) <==> Reaches(p, s, e, hi, j)
  {
    if Reaches(p, s, c, hi, j) {
      var d: Config, m: nat :| d.pc == hi && d.i == j && Exits(p, s, c, d, m);
      assert Exits(p, s, e, d, m - 1);
    }
    if Reaches(p, s, e, hi, j) {
      var d: Config, m: nat :| d.pc == hi && d.i == j && Exits(p, s, e, d, m);
      assert Step(p, s, c, true).value == e;
      assert Exits(p, s, c, d, m + 1);
    }
  }

  /** A split reaches what either of its branches reaches. */
  lemma ReachesBranch(p: Program, s: string, c: Config, hi: nat, j: nat)
    requires SevenBit(s) && c.pc < |p| && c.pc != hi && p[c.pc].Split?
    ensures Reaches(p, s, c, hi, j) <==>
      Reaches(p, s, c.(pc := p[c.pc].first), hi, j) || Reaches(p, s, c.(pc := p[c.pc].second), hi, j)
  {
    assert Step(p, s, c, true).value == c.(pc := p[c.pc].first);
    assert Step(p, s, c, false).value == c.(pc := p[c.pc].second);
    if Reaches(p, s, c, hi, j) {
      var d: Config, m: nat :| d.pc == hi && d.i == j && Exits(p, s, c, d, m);
      assert Exits(p, s, c.(pc := p[c.pc].first), d, m - 1) || Exits(p, s, c.(pc := p[c.pc].second), d, m - 1);
    }
    forall b: bool | Reaches(p, s, Step(p, s, c, b).value, hi, j) ensures Reaches(p, s, c, hi, j) {
      var d: Config, m: nat :| d.pc == hi && d.i == j && Exits(p, s, Step(p, s, c, b).value, d, m);
      assert Exits(p, s, c, d, m + 1);
    }
  }

  /** Code followed by code implements consecutive spans. */
  lemma ReachesThen(p: Program, s: string, mid: nat, a: Spans, b: Spans, c: Config, hi: nat, j: nat)
    requires SevenBit(s) && c.i <= |s| && Fragment(p, c.pc, mid) && mid <= hi
    requires Implements(p, s, c.pc, mid, a) && Implements(p, s, mid, hi, b)
    ensures Reaches(p, s, c, hi, j) <==> Follows(a, b, c.i, j)
  {
    if Reaches(p, s, c, hi, j) {
      var d: Config, m: nat :| d.pc == hi && d.i == j && Exits(p, s, c, d, m);
      var via, m' := ExitsSplit(p, s, c.pc, mid, c, d, m);
      assert Reaches(p, s, c, mid, via.i) && Reaches(p, s, via, hi, j);
    }
    if Follows(a, b, c.i, j) {
      var k: nat :| a(c.i, k) && b(k, j);
      assert Reaches(p, s, c, mid, k);
      var via: Config, m: nat :| via.pc == mid && via.i == k && Exits(p, s, c, via, m);
      ExitsInside(p, s, c, via, m);
      assert Reaches(p, s, via, hi, j);
      var d: Config, m': nat :| d.pc == hi && d.i == j && Exits(p, s, via, d, m');
      ExitsJoin(p, s, c.pc, c, via, d, m, m');
    }
  }

  /** Two pieces of code in a row implement consecutive spans. */
  lemma ConcatImplements(
    p: Program, s: string, base: nat, l: seq<Instr>, r: seq<Instr>, a: Spans, b: Spans, ab: Spans)
    requires SevenBit(s) && Placed(p, base, l + r) && Enclosed(l, base)
    requires Implements(p, s, base, base + |l|, a)
    requires Implements(p, s, base + |l|, base + |l| + |r|, b)
    requires forall i: nat, j: nat :: Follows(a, b, i, j) == ab(i, j)
    ensures Implements(p, s, base, base + |l + r|, ab)
  {
    PlacedParts(p, base, l, r);
    PlacedFragment(p, base, l);
    var hi := base + |l| + |r|;
    forall c: Config, j: nat | c.pc == base && c.i <= |s| ensures Reaches(p, s, c, hi, j) <==> ab(c.i, j) {
      ReachesThen(p, s, base + |l|, a, b, c, hi, j);
    }
  }

  lemma ImplementsSame(p: Program, s: string, lo: nat, hi: nat, a: Spans, b: Spans)
    requires SevenBit(s) && Implements(p, s, lo, hi, a) && forall i: nat, j: nat :: a(i, j) == b(i, j)
    ensures Implements(p, s, lo, hi, b)
  {
  }

  lemma EmptyImplements(p: Program, s: string, base: nat, r: Spans)
    requires SevenBit(s) && forall i: nat, j: nat :: r(i, j) <==> i == j
    ensures Implements(p, s, base, base, r)
  {
    forall c: Config, j: nat | c.pc == base && c.i <= |s| ensures Reaches(p, s, c, base, j) <==> r(c.i, j) {
      ReachesSelf(p, s, c, j);
    }
  }

  // ----- Quantifiers -----

  ghost function Power(r: Spans, k: nat): Spans
  {
    (i: nat, j: nat) => Repeats(r, i, j, k)
  }

  ghost function Within(r: Spans, nmin: int, nmax: int): Spans
  {
    (i: nat, j: nat) => RepeatsWithin(r, i, j, nmin, nmax)
  }

  /** Wherever a copy of the generated code is placed, it implements the spans. */
  ghost predicate Generates(g: Generator, p: Program, s: string, r: Spans)
    requires SevenBit(s)
  {
    forall b: nat :: Placed(p, b, g(b)) ==> Implements(p, s, b, b + |g(b)|, r)
  }

  lemma {:induction false} CopiesImplement(g: Generator, p: Program, s: string, r: Spans, base: nat, k: nat)
    requires SevenBit(s) && AlwaysEnclosed(g) && Generates(g, p, s, r) && Placed(p, base, Copies(g, base, k))
    ensures Implements(p, s, base, base + |Copies(g, base, k)|, Power(r, k))
    decreases k
  {
    hide Implements, Enclosed, AlwaysEnclosed, Placed;
    if k == 0 {
      EmptyImplements(p, s, base, Power(r, 0));
    } else {
      var c := Copies(g, base, k - 1);
      PlacedParts(p, base, c, g(base + |c|));
      CopiesImplement(g, p, s, r, base, k - 1);
      CopiesEnclosed(g, base, k - 1);
      ConcatImplements(p, s, base, c, g(base + |c|), Power(r, k - 1), r, Power(r, k));
    }
  }

  lemma OptionCopyImplements(g: Generator, p: Program, s: string, r: Spans, base: nat, greedy: bool)
    requires SevenBit(s) && Generates(g, p, s, r) && Placed(p, base, OptionCopy(g, base, greedy))
    ensures Implements(p, s, base, base + |OptionCopy(g, base, greedy)|, Within(r, 0, 1))
  {
    var c := g(base + 1);
    var hi := base + 1 + |c|;
    PlacedParts(p, base, [Branch(greedy, base + 1, hi)], c);
    PlacedAt(p, base, [Branch(greedy, base + 1, hi)], 0);
    forall x: Config, j: nat | x.pc == base && x.i <= |s|
      ensures Reaches(p, s, x, hi, j) <==> Within(r, 0, 1)(x.i, j)
    {
      ReachesBranch(p, s, x, hi, j);
      ReachesSelf(p, s, x.(pc := hi), j);
      assert Reaches(p, s, x.(pc := base + 1), hi, j) <==> r(x.i, j);
      RepeatsOnce(r, x.i, j);
      if Within(r, 0, 1)(x.i, j) {
        var k: nat :| k <= 1 && Repeats(r, x.i, j, k);
      }
      assert Repeats(r, x.i, x.i, 0);
    }
  }

  lemma ReachesSelf(p: Program, s: string, c: Config, j: nat)
    requires SevenBit(s)
    ensures Reaches(p, s, c, c.pc, j) <==> c.i == j
  {
    assert Exits(p, s, c, c, 0);
  }

  /** Spans made of a fixed number of repetitions followed by a variable one. */
  lemma FollowsRepeats(r: Spans, a: nat, b: int)
    requires b >= -1
    ensures
      var c := if b == -1 then -1 else a + b;
      forall i: nat, j: nat :: Follows(Power(r, a), Within(r, 0, b), i, j) == Within(r, a, c)(i, j)
  {
    var c := if b == -1 then -1 else a + b;
    forall i: nat, j: nat ensures Follows(Power(r, a), Within(r, 0, b), i, j) == Within(r, a, c)(i, j) {
      if Follows(Power(r, a), Within(r, 0, b), i, j) {
        var m: nat :| Power(r, a)(i, m) && Within(r, 0, b)(m, j);
        var k: nat :| (b == -1 || k <= b) && Repeats(r, m, j, k);
        RepeatsJoin(r, i, m, j, a, k);
      }
      if Within(r, a, c)(i, j) {
        var k: nat :| a <= k && (c == -1 || k <= c) && Repeats(r, i, j, k);
        var m := RepeatsSplit(r, i, j, a, k - a);
        assert Power(r, a)(i, m) && Within(r, 0, b)(m, j);
      }
    }
  }

  lemma FollowsOptions(r: Spans, k: nat)
    ensures forall i: nat, j: nat :: Follows(Within(r, 0, k), Within(r, 0, 1), i, j) == Within(r, 0, k + 1)(i, j)
  {
    forall i: nat, j: nat
      ensures Follows(Within(r, 0, k), Within(r, 0, 1), i, j) == Within(r, 0, k + 1)(i, j)
    {
      if Follows(Within(r, 0, k), Within(r, 0, 1), i, j) {
        var m: nat :| Within(r, 0, k)(i, m) && Within(r, 0, 1)(m, j);
        var a: nat :| a <= k && Repeats(r, i, m, a);
        var b: nat :| b <= 1 && Repeats(r, m, j, b);
        RepeatsJoin(r, i, m, j, a, b);
      }
      if Within(r, 0, k + 1)(i, j) {
        var a: nat :| a <= k + 1 && Repeats(r, i, j, a);
        var b := if a == 0 then 0 else 1;
        var m := RepeatsSplit(r, i, j, a - b, b);
        assert Within(r, 0, k)(i, m) && Within(r, 0, 1)(m, j);
      }
    }
  }

  lemma NoOptionImplements(p: Program, s: string, base: nat, r: Spans)
    requires SevenBit(s)
    ensures Implements(p, s, base, base, Within(r, 0, 0))
  {
    forall i: nat ensures Within(r, 0, 0)(i, i) { assert Repeats(r, i, i, 0); }
    EmptyImplements(p, s, base, Within(r, 0, 0));
  }

  /** One more optional copy after code that implements up to `k - 1` repetitions. */
  lemma OneMoreOption(
    g: Generator, p: Program, s: string, r: Spans, base: nat, greedy: bool, c: seq<Instr>, code: seq<Instr>, k: nat)
    requires SevenBit(s) && Generates(g, p, s, r) && Enclosed(c, base) && k > 0
    requires code == c + OptionCopy(g, base + |c|, greedy) && Placed(p, base, code)
    requires Implements(p, s, base, base + |c|, Within(r, 0, k - 1))
    ensures Implements(p, s, base, base + |code|, Within(r, 0, k))
  {
    var copy := OptionCopy(g, base + |c|, greedy);
    PlacedParts(p, base, c, copy);
    OptionCopyImplements(g, p, s, r, base + |c|, greedy);
    FollowsOptions(r, k - 1);
    ConcatImplements(p, s, base, c, copy, Within(r, 0, k - 1), Within(r, 0, 1), Within(r, 0, k));
  }

  lemma {:induction false} OptionsImplement(
    g: Generator, p: Program, s: string, r: Spans, base: nat, greedy: bool, k: nat)
    requires SevenBit(s) && AlwaysEnclosed(g) && Generates(g, p, s, r)
    requires Placed(p, base, Options(g, base, greedy, k))
    ensures Implements(p, s, base, base + |Options(g, base, greedy, k)|, Within(r, 0, k))
    decreases k
  {
    hide Implements, Enclosed, AlwaysEnclosed, Generates, Placed, Within, OptionCopy;
    if k == 0 {
      NoOptionImplements(p, s, base, r);
    } else {
      var c := Options(g, base, greedy, k - 1);
      var copy := OptionCopy(g, base + |c|, greedy);
      assert Options(g, base, greedy, k) == c + copy;
      PlacedParts(p, base, c, copy);
      OptionsImplement(g, p, s, r, base, greedy, k - 1);
      OptionsEnclosed(g, base, greedy, k - 1);
      OneMoreOption(g, p, s, r, base, greedy, c, Options(g, base, greedy, k), k);
    }
  }

  /** A loop: the split at `at` goes to the body at `lo` or out to `hi`, and every way out of the
      body at `mid` comes back to the split. */
  ghost predicate Loop(p: Program, at: nat, lo: nat, mid: nat, hi: nat)
  {
    && Fragment(p, lo, mid)
    && at < |p| && !(lo <= at < mid)
    && !(lo <= hi < mid) && at != hi && mid != hi && lo != hi
    && (p[at] == Split(lo, hi) || p[at] == Split(hi, lo))
    && (mid == at || (mid < |p| && p[mid] == Jump(at)))
  }

  lemma {:induction false} LoopSound(
    p: Program, s: string, at: nat, lo: nat, mid: nat, hi: nat, r: Spans, c: Config, d: Config, m: nat)
    requires SevenBit(s) && Loop(p, at, lo, mid, hi) && Implements(p, s, lo, mid, r)
    requires c.pc == at && c.i <= |s| && d.pc == hi && Exits(p, s, c, d, m)
    ensures RepeatsWithin(r, c.i, d.i, 0, -1)
    decreases m
  {
    var b :| Step(p, s, c, b).Some? && Exits(p, s, Step(p, s, c, b).value, d, m - 1);
    var e := Step(p, s, c, b).value;
    if e.pc == hi {
      assert Repeats(r, c.i, c.i, 0);
    } else {
      var via, n := ExitsSplit(p, s, lo, mid, e, d, m - 1);
      assert Reaches(p, s, e, mid, via.i);
      assert r(c.i, via.i);
      if mid != at {
        var x :| Step(p, s, via, x).Some? && Exits(p, s, Step(p, s, via, x).value, d, n - 1);
        via, n := Step(p, s, via, x).value, n - 1;
      }
      LoopSound(p, s, at, lo, mid, hi, r, via, d, n);
      var k: nat :| Repeats(r, via.i, d.i, k);
      RepeatsPrepend(r, c.i, via.i, d.i, k);
    }
  }

  lemma {:induction false} LoopComplete(
    p: Program, s: string, at: nat, lo: nat, mid: nat, hi: nat, r: Spans, c: Config, j: nat, k: nat)
    requires SevenBit(s) && Loop(p, at, lo, mid, hi) && Implements(p, s, lo, mid, r)
    requires c.pc == at && c.i <= |s| && Repeats(r, c.i, j, k)
    ensures Reaches(p, s, c, hi, j)
    decreases k
  {
    ReachesBranch(p, s, c, hi, j);
    if k == 0 {
      ReachesSelf(p, s, c.(pc := hi), j);
    } else {
      var i' := RepeatsFirst(r, c.i, j, k);
      var e := c.(pc := lo);
      assert Reaches(p, s, e, mid, i');
      var via: Config, m: nat :| via.pc == mid && via.i == i' && Exits(p, s, e, via, m);
      ExitsInside(p, s, e, via, m);
      LoopComplete(p, s, at, lo, mid, hi, r, via.(pc := at), j, k - 1);
      if mid != at {
        ReachesStep(p, s, via, via.(pc := at), hi, j);
      }
      var d: Config, n: nat :| d.pc == hi && d.i == j && Exits(p, s, via, d, n);
      ExitsJoin(p, s, lo, e, via, d, m, n);
    }
  }

  lemma LoopImplements(p: Program, s: string, at: nat, lo: nat, mid: nat, hi: nat, r: Spans)
    requires SevenBit(s) && Loop(p, at, lo, mid, hi) && Implements(p, s, lo, mid, r)
    ensures Implements(p, s, at, hi, Within(r, 0, -1))
  {
    forall c: Config, j: nat | c.pc == at && c.i <= |s|
      ensures Reaches(p, s, c, hi, j) <==> Within(r, 0, -1)(c.i, j)
    {
      if Reaches(p, s, c, hi, j) {
        var d: Config, m: nat :| d.pc == hi && d.i == j && Exits(p, s, c, d, m);
        LoopSound(p, s, at, lo, mid, hi, r, c, d, m);
      }
      if Within(r, 0, -1)(c.i, j) {
        var k: nat :| Repeats(r, c.i, j, k);
        LoopComplete(p, s, at, lo, mid, hi, r, c, j, k);
      }
    }
  }

  lemma StarImplements(g: Generator, p: Program, s: string, r: Spans, base: nat, greedy: bool)
    requires SevenBit(s) && AlwaysEnclosed(g) && Generates(g, p, s, r)
    requires Placed(p, base, StarLoop(g, base, greedy))
    ensures Implements(p, s, base, base + |StarLoop(g, base, greedy)|, Within(r, 0, -1))
  {
    var body := g(base + 1);
    var split := [Branch(greedy, base + 1, base + 2 + |body|)];
    PlacedParts(p, base, split + body, [Jump(base)]);
    PlacedParts(p, base, split, body);
    PlacedAt(p, base, split, 0);
    PlacedAt(p, base + 1 + |body|, [Jump(base)], 0);
    PlacedFragment(p, base + 1, body);
    LoopImplements(p, s, base, base + 1, base + 1 + |body|, base + 2 + |body|, r);
  }

  lemma PlusImplements(g: Generator, p: Program, s: string, r: Spans, base: nat, greedy: bool, k: nat)
    requires SevenBit(s) && AlwaysEnclosed(g) && Generates(g, p, s, r) && k > 0
    requires Placed(p, base, PlusLoop(g, base, greedy, k))
    ensures Implements(p, s, base, base + |PlusLoop(g, base, greedy, k)|, Within(r, k, -1))
  {
    hide Implements, Within, Power, Repeats;
    var c := Copies(g, base, k);
    var last := base + |Copies(g, base, k - 1)|;
    var at := base + |c|;
    PlacedParts(p, base, c, [Branch(greedy, last, at + 1)]);
    PlacedAt(p, at, [Branch(greedy, last, at + 1)], 0);
    PlacedParts(p, base, Copies(g, base, k - 1), g(last));
    PlacedFragment(p, last, g(last));
    LoopImplements(p, s, at, last, at, at + 1, r);
    CopiesImplement(g, p, s, r, base, k);
    CopiesEnclosed(g, base, k);
    FollowsRepeats(r, k, -1);
    ConcatImplements(p, s, base, c, [Branch(greedy, last, at + 1)], Power(r, k), Within(r, 0, -1), Within(r, k, -1));
  }

  lemma IntervalImplements(
    g: Generator, p: Program, s: string, r: Spans, base: nat, greedy: bool, nmin: nat, nmax: nat)
    requires SevenBit(s) && AlwaysEnclosed(g) && Generates(g, p, s, r) && nmin <= nmax
    requires Placed(p, base, Quantified(g, base, nmin, nmax, greedy))
    ensures Implements(p, s, base, base + |Quantified(g, base, nmin, nmax, greedy)|, Within(r, nmin, nmax))
  {
    hide Implements, Enclosed, AlwaysEnclosed, Generates, Placed, Within, Power;
    var c := Copies(g, base, nmin);
    var mid := base + |c|;
    var opts := Options(g, mid, greedy, nmax - nmin);
    assert nmin == nmax ==> opts == [] && c + opts == c;
    PlacedParts(p, base, c, opts);
    CopiesImplement(g, p, s, r, base, nmin);
    OptionsImplement(g, p, s, r, mid, greedy, nmax - nmin);
    CopiesEnclosed(g, base, nmin);
    FollowsRepeats(r, nmin, nmax - nmin);
    ConcatImplements(p, s, base, c, opts, Power(r, nmin), Within(r, 0, nmax - nmin), Within(r, nmin, nmax));
  }

  lemma QuantifiedImplements(
    g: Generator, p: Program, s: string, r: Spans, base: nat, nmin: nat, nmax: int, greedy: bool)
    requires SevenBit(s) && AlwaysEnclosed(g) && Generates(g, p, s, r) && (nmax == -1 || nmin <= nmax)
    requires Placed(p, base, Quantified(g, base, nmin, nmax, greedy))
    ensures Implements(p, s, base, base + |Quantified(g, base, nmin, nmax, greedy)|, Within(r, nmin, nmax))
  {
    if nmax >= nmin {
      IntervalImplements(g, p, s, r, base, greedy, nmin, nmax);
    } else if nmin == 0 {
      StarImplements(g, p, s, r, base, greedy);
    } else {
      PlusImplements(g, p, s, r, base, greedy, nmin);
    }
  }

  // ----- The other trees -----

  /** A class instruction tests membership in the class of its node. */
  lemma ClassInstrAccepts(negated: bool, from: string, ch: char)
    requires SevenBit(from) && ch as int < 128
    ensures IsConsuming(ClassInstr(negated, from))
    ensures Accepts(ClassInstr(negated, from), ch) <==> (InItems(ClassItems(from), ch) <==> !negated)
  {
    FillContains(ClassItems(from), ch);
  }

  lemma LeafReaches(n: Node, p: Program, s: string, c: Config, j: nat)
    requires WellFormed(n) && IsLeaf(n) && SevenBit(s) && c.i <= |s| && Placed(p, c.pc, LeafCode(n))
    ensures Reaches(p, s, c, c.pc + |LeafCode(n)|, j) <==> Matches(n, s, c.i, j)
  {
    if n.Epsilon? {
      ReachesSelf(p, s, c, j);
    } else {
      PlacedAt(p, c.pc, LeafCode(n), 0);
      if n.CharacterClass? && c.i < |s| {
        ClassInstrAccepts(n.negated, n.from, s[c.i]);
      }
      if Step(p, s, c, true).Some? {
        var e := Step(p, s, c, true).value;
        ReachesStep(p, s, c, e, c.pc + 1, j);
        ReachesSelf(p, s, e, j);
      }
    }
  }

  lemma AlternativesImplement(p: Program, s: string, base: nat, l: seq<Instr>, r: seq<Instr>, a: Spans, b: Spans)
    requires SevenBit(s) && Placed(p, base, Alternatives(l, r, base))
    requires Enclosed(l, base + 1)
    requires Placed(p, base + 1, l) ==> Implements(p, s, base + 1, base + 1 + |l|, a)
    requires Placed(p, base + 2 + |l|, r) ==> Implements(p, s, base + 2 + |l|, base + 2 + |l| + |r|, b)
    ensures Implements(p, s, base, base + |Alternatives(l, r, base)|, (i: nat, j: nat) => a(i, j) || b(i, j))
  {
    var mid := base + 2 + |l|;
    var hi := mid + |r|;
    AlternativesParts(p, base, l, r);
    PlacedFragment(p, base + 1, l);
    JumpImplements(p, s, base + 1 + |l|, hi);
    forall c: Config, j: nat | c.pc == base && c.i <= |s|
      ensures Reaches(p, s, c, hi, j) <==> a(c.i, j) || b(c.i, j)
    {
      ReachesBranch(p, s, c, hi, j);
      ReachesThen(p, s, base + 1 + |l|, a, (x: nat, y: nat) => x == y, c.(pc := base + 1), hi, j);
      assert Reaches(p, s, c.(pc := mid), hi, j) <==> b(c.i, j);
    }
  }

  lemma JumpImplements(p: Program, s: string, base: nat, hi: nat)
    requires SevenBit(s) && base < |p| && p[base] == Jump(hi) && base != hi
    ensures Implements(p, s, base, hi, (x: nat, y: nat) => x == y)
  {
    forall c: Config, j: nat | c.pc == base && c.i <= |s| ensures Reaches(p, s, c, hi, j) <==> c.i == j {
      ReachesStep(p, s, c, c.(pc := hi), hi, j);
      ReachesSelf(p, s, c.(pc := hi), j);
    }
  }

  /** Where the parts of an alternation are placed. */
  lemma AlternativesParts(p: Program, base: nat, l: seq<Instr>, r: seq<Instr>)
    requires Placed(p, base, Alternatives(l, r, base))
    ensures Placed(p, base + 1, l) && Placed(p, base + 2 + |l|, r) && base + 1 + |l| < |p|
    ensures p[base] == Split(base + 1, base + 2 + |l|)
    ensures p[base + 1 + |l|] == Jump(base + 2 + |l| + |r|)
  {
    var split, jump := [Split(base + 1, base + 2 + |l|)], [Jump(base + 2 + |l| + |r|)];
    PlacedParts(p, base, split + l + jump, r);
    PlacedParts(p, base, split + l, jump);
    PlacedParts(p, base, split, l);
    PlacedAt(p, base, split, 0);
    PlacedAt(p, base + 1 + |l|, jump, 0);
  }

  lemma SavedParts(p: Program, base: nat, body: seq<Instr>, nc: nat)
    requires Placed(p, base, Saved(body, nc))
    ensures Placed(p, base + 1, body)
    ensures p[base] == Save(2 * nc) && p[base + 1 + |body|] == Save(2 * nc + 1)
  {
    PlacedParts(p, base, [Save(2 * nc)] + body, [Save(2 * nc + 1)]);
    PlacedParts(p, base, [Save(2 * nc)], body);
    PlacedAt(p, base, [Save(2 * nc)], 0);
    PlacedAt(p, base + 1 + |body|, [Save(2 * nc + 1)], 0);
  }

  /** Saving does not restrict the spans. */
  lemma SavedImplements(p: Program, s: string, base: nat, body: seq<Instr>, nc: nat, r: Spans)
    requires SevenBit(s) && Placed(p, base, Saved(body, nc)) && Enclosed(body, base + 1)
    requires Placed(p, base + 1, body) ==> Implements(p, s, base + 1, base + 1 + |body|, r)
    ensures Implements(p, s, base, base + |Saved(body, nc)|, r)
  {
    SavedParts(p, base, body, nc);
    PlacedFragment(p, base + 1, body);
    var mid := base + 1 + |body|;
    forall c: Config, j: nat | c.pc == base && c.i <= |s| ensures Reaches(p, s, c, mid + 1, j) <==> r(c.i, j) {
      var e := Config(base + 1, c.i, Store(c.slots, 2 * nc, c.i));
      ReachesStep(p, s, c, e, mid + 1, j);
      SaveImplements(p, s, mid, mid + 1);
      ReachesThen(p, s, mid, r, (x: nat, y: nat) => x == y, e, mid + 1, j);
    }
  }

  lemma SaveImplements(p: Program, s: string, base: nat, hi: nat)
    requires SevenBit(s) && base < |p| && p[base].Save? && hi == base + 1
    ensures Implements(p, s, base, hi, (x: nat, y: nat) => x == y)
  {
    forall c: Config, j: nat | c.pc == base && c.i <= |s| ensures Reaches(p, s, c, hi, j) <==> c.i == j {
      var e := Config(hi, c.i, Store(c.slots, p[base].slot, c.i));
      ReachesStep(p, s, c, e, hi, j);
      ReachesSelf(p, s, e, j);
    }
  }

  lemma {:induction false} ConcatenationImplements(n: Node, p: Program, base: nat, nc: nat, s: string)
    requires WellFormed(n) && n.Concatenation? && SevenBit(s) && Placed(p, base, Code(n, base, nc))
    ensures Implements(p, s, base, base + |Code(n, base, nc)|, Language(n, s))
    decreases n, 0
  {
    hide Implements, Enclosed, Placed, CapturesAfter, Matches, Language, Follows, Code;
    ConcatenationCode(n, base, nc);
    var l, mc := Code(n.left, base, nc), CapturesAfter(n.left, nc);
    var r := Code(n.right, base + |l|, mc);
    PlacedParts(p, base, l, r);
    CodeImplements(n.left, p, base, nc, s);
    CodeImplements(n.right, p, base + |l|, mc, s);
    CodeEnclosed(n.left, base, nc);
    LanguageParts(n, s);
    ConcatImplements(p, s, base, l, r, Language(n.left, s), Language(n.right, s), Language(n, s));
  }

  lemma {:induction false} AlternationImplements(n: Node, p: Program, base: nat, nc: nat, s: string)
    requires WellFormed(n) && n.Alternation? && SevenBit(s) && Placed(p, base, Code(n, base, nc))
    ensures Implements(p, s, base, base + |Code(n, base, nc)|, Language(n, s))
    decreases n, 0
  {
    hide Implements, Enclosed, Placed, CapturesAfter, Matches, Language, Code;
    AlternationCode(n, base, nc);
    var l, mc := Code(n.left, base + 1, nc), CapturesAfter(n.left, nc);
    var r := Code(n.right, base + 2 + |l|, mc);
    AlternativesParts(p, base, l, r);
    CodeImplements(n.left, p, base + 1, nc, s);
    CodeImplements(n.right, p, base + 2 + |l|, mc, s);
    CodeEnclosed(n.left, base + 1, nc);
    var a, b := Language(n.left, s), Language(n.right, s);
    AlternativesImplement(p, s, base, l, r, a, b);
    LanguageParts(n, s);
    ImplementsSame(p, s, base, base + |Code(n, base, nc)|, (i: nat, j: nat) => a(i, j) || b(i, j), Language(n, s));
  }

  lemma {:induction false} QuantifierImplements(n: Node, p: Program, base: nat, nc: nat, s: string)
    requires WellFormed(n) && n.Quantifier? && SevenBit(s) && Placed(p, base, Code(n, base, nc))
    ensures Implements(p, s, base, base + |Code(n, base, nc)|, Language(n, s))
    decreases n, 0
  {
    hide Implements, AlwaysEnclosed, Generates, Placed, Matches, Language, Quantified, Code;
    QuantifierCode(n, base, nc);
    var g, r := CodeOf(n.quantified, nc), Language(n.quantified, s);
    CodeOfEnclosed(n.quantified, nc);
    CodeOfGenerates(n.quantified, p, nc, s);
    QuantifiedImplements(g, p, s, r, base, n.nmin, n.nmax, n.greedy);
    LanguageParts(n, s);
    ImplementsSame(p, s, base, base + |Code(n, base, nc)|, Within(r, n.nmin, n.nmax), Language(n, s));
  }

  lemma {:induction false} CaptureImplements(n: Node, p: Program, base: nat, nc: nat, s: string)
    requires WellFormed(n) && n.Capture? && SevenBit(s) && Placed(p, base, Code(n, base, nc))
    ensures Implements(p, s, base, base + |Code(n, base, nc)|, Language(n, s))
    decreases n, 0
  {
    hide Implements, Enclosed, Placed, Matches, Language, Code;
    CaptureCode(n, base, nc);
    var body := Code(n.captured, base + 1, nc + 1);
    SavedParts(p, base, body, nc);
    CodeImplements(n.captured, p, base + 1, nc + 1, s);
    CodeEnclosed(n.captured, base + 1, nc + 1);
    SavedImplements(p, s, base, body, nc, Language(n.captured, s));
    LanguageParts(n, s);
    ImplementsSame(p, s, base, base + |Code(n, base, nc)|, Language(n.captured, s), Language(n, s));
  }

  lemma LeafImplements(n: Node, p: Program, base: nat, nc: nat, s: string)
    requires WellFormed(n) && IsLeaf(n) && SevenBit(s) && Placed(p, base, Code(n, base, nc))
    ensures Implements(p, s, base, base + |Code(n, base, nc)|, Language(n, s))
  {
    var hi := base + |LeafCode(n)|;
    forall c: Config, j: nat | c.pc == base && c.i <= |s| ensures Reaches(p, s, c, hi, j) <==> Language(n, s)(c.i, j) {
      LeafReaches(n, p, s, c, j);
    }
  }

  /** Compilation preserves meaning, wherever the code is placed and however its captures are
      numbered. */
  lemma {:induction false} CodeImplements(n: Node, p: Program, base: nat, nc: nat, s: string)
    requires WellFormed(n) && SevenBit(s) && Placed(p, base, Code(n, base, nc))
    ensures Implements(p, s, base, base + |Code(n, base, nc)|, Language(n, s))
    decreases n, 1
  {
    hide Implements, Placed, Code, Language;
    match n
    case Concatenation(_, _) => ConcatenationImplements(n, p, base, nc, s);
    case Alternation(_, _) => AlternationImplements(n, p, base, nc, s);
    case Quantifier(_, _, _, _) => QuantifierImplements(n, p, base, nc, s);
    case Capture(_) => CaptureImplements(n, p, base, nc, s);
    case _ => LeafImplements(n, p, base, nc, s);
  }

  lemma {:induction false} CodeOfGenerates(q: Node, p: Program, nc: nat, s: string)
    requires WellFormed(q) && SevenBit(s)
    ensures Generates(CodeOf(q, nc), p, s, Language(q, s))
    decreases q, 2
  {
    forall b: nat | Placed(p, b, CodeOf(q, nc)(b))
      ensures Implements(p, s, b, b + |CodeOf(q, nc)(b)|, Language(q, s))
    {
      CodeImplements(q, p, b, nc, s);
    }
  }
}
