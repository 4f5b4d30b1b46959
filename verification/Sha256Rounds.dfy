/** The structure of the SHA-256 block function (src/hash.c:652-723): a circular schedule of 16 words
    and registers whose roles rotate instead of their values, against the 64-word schedule and the
    shifting registers of section 6.2.2 of FIPS 180-4. The words are any type with an associative
    and commutative sum; the table of constants is a parameter. */
module Sha256Rounds {

  /** The operations on words. */
  datatype Ops<!W> = Ops(
    add: (W, W) -> W,
    bigSigma0: W -> W, bigSigma1: W -> W, smallSigma0: W -> W, smallSigma1: W -> W,
    choose: (W, W, W) -> W, majority: (W, W, W) -> W)

  /** Two ways of writing the same operations. */
  ghost predicate Agree<W(!new)>(fips: Ops<W>, code: Ops<W>)
  {
    && (forall x, y :: code.add(x, y) == fips.add(x, y))
    && (forall x, y :: fips.add(x, y) == fips.add(y, x))
    && (forall x, y, z :: fips.add(fips.add(x, y), z) == fips.add(x, fips.add(y, z)))
    && (forall x :: code.bigSigma0(x) == fips.bigSigma0(x) && code.bigSigma1(x) == fips.bigSigma1(x))
    && (forall x :: code.smallSigma0(x) == fips.smallSigma0(x) && code.smallSigma1(x) == fips.smallSigma1(x))
    && (forall x, y, z :: code.choose(x, y, z) == fips.choose(x, y, z))
    && (forall x, y, z :: code.majority(x, y, z) == fips.majority(x, y, z))
  }

  // ----- Section 6.2.2 -----

  function NextScheduled<W>(o: Ops<W>, w2: W, w7: W, w15: W, w16: W): W
  {
    o.add(o.add(o.add(o.smallSigma1(w2), w7), o.smallSigma0(w15)), w16)
  }

  function Schedule<W>(o: Ops<W>, m: seq<W>, t: nat): W
    requires |m| == 16
  {
    if t < 16 then m[t]
    else NextScheduled(o, Schedule(o, m, t - 2), Schedule(o, m, t - 7), Schedule(o, m, t - 15), Schedule(o, m, t - 16))
  }

  datatype Registers<W> = Registers(a: W, b: W, c: W, d: W, e: W, f: W, g: W, h: W)

  function Round<W>(o: Ops<W>, r: Registers<W>, k: W, w: W): Registers<W>
  {
    var t1 := o.add(o.add(o.add(o.add(r.h, o.bigSigma1(r.e)), o.choose(r.e, r.f, r.g)), k), w);
    var t2 := o.add(o.bigSigma0(r.a), o.majority(r.a, r.b, r.c));
    Registers(o.add(t1, t2), r.a, r.b, r.c, o.add(r.d, t1), r.e, r.f, r.g)
  }

  /** The registers after `t` rounds. */
  function Rounds<W>(o: Ops<W>, m: seq<W>, k: seq<W>, r: Registers<W>, t: nat): Registers<W>
    requires |m| == 16 && |k| == 64 && t <= 64
  {
    if t == 0 then r else Round(o, Rounds(o, m, k, r, t - 1), k[t - 1], Schedule(o, m, t - 1))
  }

  // ----- The code -----

  /** What the macro R first adds to the variable in role h. */
  function CodeT1<W>(o: Ops<W>, e: W, f: W, g: W, k: W, w: W): W
  {
    o.add(o.add(o.add(o.bigSigma1(e), o.choose(e, f, g)), k), w)
  }

  function CodeT2<W>(o: Ops<W>, a: W, b: W, c: W): W
  {
    o.add(o.bigSigma0(a), o.majority(a, b, c))
  }

  /** What the macro BLK2 adds to a word of the schedule. */
  function CodeNext<W>(o: Ops<W>, x2: W, x7: W, x15: W): W
  {
    o.add(o.add(o.smallSigma1(x2), x7), o.smallSigma0(x15))
  }

  lemma CodeRoundIs<W(!new)>(fips: Ops<W>, code: Ops<W>, r: Registers<W>, k: W, w: W)
    requires Agree(fips, code)
    ensures
      var t1 := code.add(r.h, CodeT1(code, r.e, r.f, r.g, k, w));
      Round(fips, r, k, w) ==
        Registers(code.add(t1, CodeT2(code, r.a, r.b, r.c)), r.a, r.b, r.c, code.add(r.d, t1), r.e, r.f, r.g)
  {
    var x, y := fips.bigSigma1(r.e), fips.choose(r.e, r.f, r.g);
    assert fips.add(r.h, fips.add(fips.add(fips.add(x, y), k), w)) ==
           fips.add(fips.add(r.h, fips.add(fips.add(x, y), k)), w);
    assert fips.add(r.h, fips.add(fips.add(x, y), k)) == fips.add(fips.add(r.h, fips.add(x, y)), k);
    assert fips.add(r.h, fips.add(x, y)) == fips.add(fips.add(r.h, x), y);
  }

  lemma CodeNextIs<W(!new)>(fips: Ops<W>, code: Ops<W>, w2: W, w7: W, w15: W, w16: W)
    requires Agree(fips, code)
    ensures code.add(w16, CodeNext(code, w2, w7, w15)) == NextScheduled(fips, w2, w7, w15, w16)
  {
  }

  /** The variable in role `k` at round `t`. */
  function Role(k: nat, t: nat): (r: nat)
    ensures r < 8
  {
    (k - t) % 8
  }

  lemma RoleShifts(k: nat, t: nat)
    requires 0 < k < 8
    ensures Role(k, t + 1) == Role(k - 1, t) && Role(0, t + 1) == Role(7, t)
  {
  }

  lemma RoleDistinct(j: nat, k: nat, t: nat)
    requires j < 8 && k < 8 && Role(j, t) == Role(k, t)
    ensures j == k
  {
  }

  ghost function Roles<W>(v: seq<W>, t: nat): Registers<W>
    requires |v| == 8
  {
    Registers(v[Role(0, t)], v[Role(1, t)], v[Role(2, t)], v[Role(3, t)],
              v[Role(4, t)], v[Role(5, t)], v[Role(6, t)], v[Role(7, t)])
  }

  lemma RolesNext<W>(v: seq<W>, t: nat, x: W, y: W)
    requires |v| == 8
    ensures
      var r := Roles(v, t);
      Roles(v[Role(7, t) := x][Role(3, t) := y], t + 1) == Registers(x, r.a, r.b, r.c, y, r.e, r.f, r.g)
  {
    hide Role;
    RoleShifts(1, t);
    RoleShifts(2, t);
    RoleShifts(3, t);
    RoleShifts(4, t);
    RoleShifts(5, t);
    RoleShifts(6, t);
    RoleShifts(7, t);
    forall j, k | 0 <= j < 8 && 0 <= k < 8 && Role(j, t) == Role(k, t) ensures j == k { RoleDistinct(j, k, t); }
  }

  /** The circular buffer holds the last 16 words of the schedule before round `t`. */
  ghost predicate Window<W>(o: Ops<W>, x: seq<W>, m: seq<W>, t: nat)
    requires |x| == |m| == 16
  {
    forall u: nat :: InWindow(u, t) ==> x[u % 16] == Schedule(o, m, u)
  }

  predicate InWindow(u: nat, t: nat)
  {
    if t < 16 then u < 16 else t - 16 <= u < t
  }

  lemma SlotUnique(u: nat, t: nat)
    requires t >= 16 && InWindow(u, t) && u % 16 == t % 16
    ensures u == t - 16
  {
  }

  lemma WindowNext<W>(o: Ops<W>, x: seq<W>, m: seq<W>, t: nat, w: W)
    requires |x| == |m| == 16 && Window(o, x, m, t) && w == Schedule(o, m, t)
    ensures Window(o, x[t % 16 := w], m, t + 1)
  {
    hide Schedule;
    forall u: nat | InWindow(u, t + 1) ensures x[t % 16 := w][u % 16] == Schedule(o, m, u) {
      if u != t && t >= 16 && u % 16 == t % 16 {
        SlotUnique(u, t);
      }
    }
  }

  /** BLK0 and BLK2: the word of round `t`, computed in place over the one of round t - 16. */
  method NextWord<W(!new)>(ghost fips: Ops<W>, code: Ops<W>, x: array<W>, t: nat, ghost m: seq<W>) returns (w: W)
    requires Agree(fips, code)
    requires x.Length == 16 == |m| && Window(fips, x[..], m, t)
    modifies x
    ensures w == Schedule(fips, m, t) && Window(fips, x[..], m, t + 1)
  {
    hide Agree, CodeNext, NextScheduled, Schedule, Window;
    var i := t % 16;
    ghost var before := x[..];
    if t >= 16 {
      WindowReads(fips, before, m, t);
      CodeNextIs(fips, code, x[(t - 2) % 16], x[(t - 7) % 16], x[(t - 15) % 16], x[i]);
      x[i] := code.add(x[i], CodeNext(code, x[(t - 2) % 16], x[(t - 7) % 16], x[(t - 15) % 16]));
    } else {
      WindowFirst(fips, before, m, t);
    }
    w := x[i];
    assert x[..] == before[i := w];
    WindowNext(fips, before, m, t, w);
  }

  lemma ScheduleStep<W>(o: Ops<W>, m: seq<W>, t: nat)
    requires |m| == 16 && t >= 16
    ensures Schedule(o, m, t) ==
      NextScheduled(o, Schedule(o, m, t - 2), Schedule(o, m, t - 7), Schedule(o, m, t - 15), Schedule(o, m, t - 16))
  {
    hide NextScheduled;
  }

  lemma WindowFirst<W>(o: Ops<W>, x: seq<W>, m: seq<W>, t: nat)
    requires |x| == |m| == 16 && t < 16 && Window(o, x, m, t)
    ensures x[t % 16] == Schedule(o, m, t)
  {
    assert InWindow(t, t);
  }

  lemma WindowAt<W>(o: Ops<W>, x: seq<W>, m: seq<W>, t: nat, u: nat)
    requires |x| == |m| == 16 && t >= 16 && t - 16 <= u < t && Window(o, x, m, t)
    ensures x[u % 16] == Schedule(o, m, u) && (u == t - 16 ==> u % 16 == t % 16)
  {
    hide Schedule;
    assert InWindow(u, t);
  }

  lemma WindowReads<W>(o: Ops<W>, x: seq<W>, m: seq<W>, t: nat)
    requires |x| == |m| == 16 && t >= 16 && Window(o, x, m, t)
    ensures Schedule(o, m, t) == NextScheduled(o, x[(t - 2) % 16], x[(t - 7) % 16], x[(t - 15) % 16], x[t % 16])
  {
    hide NextScheduled, Schedule;
    hide Window;
    ScheduleStep(o, m, t);
    WindowAt(o, x, m, t, t - 2);
    WindowAt(o, x, m, t, t - 7);
    WindowAt(o, x, m, t, t - 15);
    WindowAt(o, x, m, t, t - 16);
  }

  /** The macro R at round `t`: two variables change, and the roles of all move on. */
  method CodeRound<W(!new)>(ghost fips: Ops<W>, code: Ops<W>, v: array<W>, t: nat, k: W, w: W)
    requires Agree(fips, code) && v.Length == 8
    modifies v
    ensures Roles(v[..], t + 1) == Round(fips, old(Roles(v[..], t)), k, w)
  {
    hide Agree, CodeT1, CodeT2, Round, Role;
    ghost var before, r := v[..], Roles(v[..], t);
    CodeRoundIs(fips, code, r, k, w);
    var a, b, c, d, e, f, g, h :=
      Role(0, t), Role(1, t), Role(2, t), Role(3, t), Role(4, t), Role(5, t), Role(6, t), Role(7, t);
    forall j, k | 0 <= j < 8 && 0 <= k < 8 && Role(j, t) == Role(k, t) ensures j == k { RoleDistinct(j, k, t); }
    var t1 := code.add(v[h], CodeT1(code, v[e], v[f], v[g], k, w));
    v[h] := t1;
    v[d] := code.add(v[d], v[h]);
    v[h] := code.add(v[h], CodeT2(code, v[a], v[b], v[c]));
    assert v[..] == before[h := v[h]][d := v[d]];
    RolesNext(before, t, v[h], v[d]);
  }

  /** The rounds of sha256_transform_cc on the 16 words of a block. */
  method AllRounds<W(!new)>(ghost fips: Ops<W>, code: Ops<W>, v: array<W>, x: array<W>, k: seq<W>)
    requires Agree(fips, code) && v.Length == 8 && x.Length == 16 && |k| == 64 && v != x
    modifies v, x
    ensures Roles(v[..], 0) == Rounds(fips, old(x[..]), k, old(Roles(v[..], 0)), 64)
  {
    hide Rounds, Agree, Window, Roles;
    ghost var m, start := x[..], Roles(v[..], 0);
    StartWindow(fips, m);
    RoundsStep(fips, m, k, start, 0);
    var j := 0;
    while j < 64
      invariant j == 0 || j == 16 || j == 32 || j == 48 || j == 64
      invariant Roles(v[..], j) == Rounds(fips, m, k, start, j) && Window(fips, x[..], m, j)
    {
      SixteenRounds(fips, code, v, x, k, j, m, start);
      j := j + 16;
    }
    RolesRound(v[..]);
  }

  /** RX_8(0) and RX_8(8). */
  method SixteenRounds<W(!new)>(ghost fips: Ops<W>, code: Ops<W>, v: array<W>, x: array<W>, k: seq<W>, j: nat,
                                ghost m: seq<W>, ghost start: Registers<W>)
    requires Agree(fips, code) && v.Length == 8 && x.Length == 16 == |m| && |k| == 64 && v != x && j + 16 <= 64
    requires Roles(v[..], j) == Rounds(fips, m, k, start, j) && Window(fips, x[..], m, j)
    modifies v, x
    ensures Roles(v[..], j + 16) == Rounds(fips, m, k, start, j + 16) && Window(fips, x[..], m, j + 16)
  {
    hide Rounds, Agree, Window, Roles;
    for i := 0 to 16
      invariant Roles(v[..], j + i) == Rounds(fips, m, k, start, j + i) && Window(fips, x[..], m, j + i)
    {
      RoundsStep(fips, m, k, start, j + i);
      var w := NextWord(fips, code, x, j + i, m);
      CodeRound(fips, code, v, j + i, k[i + j], w);
    }
  }

  lemma RoundsStep<W>(o: Ops<W>, m: seq<W>, k: seq<W>, r: Registers<W>, t: nat)
    requires |m| == 16 && |k| == 64 && t < 64
    ensures Rounds(o, m, k, r, 0) == r
    ensures Rounds(o, m, k, r, t + 1) == Round(o, Rounds(o, m, k, r, t), k[t], Schedule(o, m, t))
  {
    hide Round, Schedule;
  }

  lemma RolesRound<W>(v: seq<W>)
    requires |v| == 8
    ensures Roles(v, 64) == Roles(v, 0)
  {
  }

  lemma StartWindow<W>(o: Ops<W>, m: seq<W>)
    requires |m| == 16
    ensures Window(o, m, m, 0)
  {
  }
}
