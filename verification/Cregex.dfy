/** Types shared by the regular-expression parser, compiler and virtual machine
    (src/cregex.h). A pointer to a pattern is modelled by the NUL-terminated string
    it points at, and a pointer to an instruction by its index in the program. */
module Cregex {
  import opened Wrappers

  const NUL: char := 0 as char
  const MAX_MATCHES: nat := 64

  /** The contents of a C string of 7-bit characters, without its terminator. */
  predicate SevenBit(s: string)
  {
    forall k :: 0 <= k < |s| ==> NUL < s[k] && s[k] as int < 128
  }

  /** Reading a C string at an offset that may be that of its terminator. */
  function CharAt(s: string, i: nat): char
    requires i <= |s|
  {
    if i < |s| then s[i] else NUL
  }

  /** `from` is the text starting just after the opening bracket (and after `^`), up to the
      end of the pattern; `len` is the offset of the closing bracket in that text. */
  datatype Node =
    | Epsilon
    | Character(ch: char)
    | AnyCharacter
    | CharacterClass(negated: bool, from: string, len: nat)
    | Concatenation(left: Node, right: Node)
    | Alternation(left: Node, right: Node)
    | Quantifier(nmin: int, nmax: int, greedy: bool, quantified: Node)
    | AnchorBegin
    | AnchorEnd
    | Capture(captured: Node)

  datatype Instr =
    | Match
    | Char(ch: char)
    | Any
    | Class(klass: CharClass)
    | ClassNegated(klass: CharClass)
    | Split(first: nat, second: nat)
    | Jump(target: nat)
    | AssertBegin
    | AssertEnd
    | Save(slot: nat)

  type Program = seq<Instr>

  // ----- 256-bit character classes -----

  const CLASS_BYTES: nat := 32
  type CharClass = k: seq<bv8> | |k| == CLASS_BYTES witness EMPTY_CLASS

  const EMPTY_CLASS: seq<bv8> :=
    [0, 0, 0, 0, 0, 0, 0, 0, 0, 0, 0, 0, 0, 0, 0, 0, 0, 0, 0, 0, 0, 0, 0, 0, 0, 0, 0, 0, 0, 0, 0, 0]

  /** `1 << b` for a bit number below CHAR_BIT. */
  function Bit(b: nat): bv8
    requires b < 8
  {
    match b
    case 0 => 0x01 case 1 => 0x02 case 2 => 0x04 case 3 => 0x08
    case 4 => 0x10 case 5 => 0x20 case 6 => 0x40 case _ => 0x80
  }

  predicate ClassContains(k: CharClass, ch: nat)
    requires ch < 256
  {
    k[ch / 8] & Bit(ch % 8) != 0
  }

  function ClassAdd(k: CharClass, ch: nat): CharClass
    requires ch < 256
  {
    k[ch / 8 := k[ch / 8] | Bit(ch % 8)]
  }

  lemma OrBit(x: bv8, a: nat, b: nat)
    requires a < 8 && b < 8
    ensures (x | Bit(a)) & Bit(b) != 0 <==> a == b || x & Bit(b) != 0
  {
  }

  /** The bitmap behaves as a set of character codes: nothing but `ch` is added. */
  lemma ClassAddContains(k: CharClass, ch: nat, d: nat)
    requires ch < 256 && d < 256
    ensures ClassContains(ClassAdd(k, ch), d) <==> ch == d || ClassContains(k, d)
  {
    OrBit(k[ch / 8], ch % 8, d % 8);
  }

  lemma EmptyClassContains(d: nat)
    requires d < 256
    ensures !ClassContains(EMPTY_CLASS, d)
  {
  }
}
