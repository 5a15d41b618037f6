/** The register-indirect addressing modes of the AVR instruction set
    (`X`, `X+`, `-X` and the same for `Y` and `Z`): how a mode adjusts the
    pointer register before and after the memory access, how the operand is
    written in a mnemonic, and how a mode is picked from its encoding index. */
module Indirection {
  import opened JavaInts
  import opened Outcome

  /** The three shared operators of the helper class `Aux`. */
  datatype Operator = Incrementor | Nil | Decrementor

  /** An operator applied to a Java `int`; the increment and decrement wrap
      around at the ends of the 32-bit range as Java's `x + 1` and `x - 1` do.
      Only `Nil` leaves any value where it is. */
  function Apply(op: Operator, x: Int32): (r: Int32)
    ensures op == Nil <==> r == x
    ensures op == Incrementor ==> r == if x == MaxInt then MinInt else x + 1
    ensures op == Decrementor ==> r == if x == MinInt then MaxInt else x - 1
  {
    match op
    case Incrementor => Wrap(x + 1)
    case Nil => x
    case Decrementor => Wrap(x - 1)
  }

  /** An addressing mode, in declaration order. */
  datatype IndirectionType = Unchanged | PostIncrement | PreDecrement {

    /** Position in the declaration, which is the encoding index. */
    function Ordinal(): (i: nat)
      ensures i < 3
    {
      match this
      case Unchanged => 0
      case PostIncrement => 1
      case PreDecrement => 2
    }

    /** The operator the mode holds for before the access: a decrement for
        `PreDecrement`, `nil` for the other two, never an increment. */
    function Pre(): (op: Operator)
      ensures op == Nil <==> this != PreDecrement
      ensures op != Incrementor
    {
      match this
      case Unchanged => Nil
      case PostIncrement => Nil
      case PreDecrement => Decrementor
    }

    /** The operator the mode holds for after the access: an increment for
        `PostIncrement`, `nil` for the other two, never a decrement. */
    function Post(): (op: Operator)
      ensures op == Nil <==> this != PostIncrement
      ensures op != Decrementor
    {
      match this
      case Unchanged => Nil
      case PostIncrement => Incrementor
      case PreDecrement => Nil
    }

    /** `preOperate`: only a pre-decrement moves the register before the
        access, and then it moves it down by one. */
    function PreOperate(x: Int32): (r: Int32)
      ensures this == PreDecrement <==> r != x
      ensures this == PreDecrement ==> r == Wrap(x - 1)
    {
      Apply(Pre(), x)
    }

    /** `postOperate`: only a post-increment moves the register after the
        access, and then it moves it up by one. */
    function PostOperate(x: Int32): (r: Int32)
      ensures this == PostIncrement <==> r != x
      ensures this == PostIncrement ==> r == Wrap(x + 1)
    {
      Apply(Post(), x)
    }

    /** The change a whole access makes to the register, before wrap-around. */
    function NetStep(): (d: int)
      ensures -1 <= d <= 1
    {
      match this
      case Unchanged => 0
      case PostIncrement => 1
      case PreDecrement => -1
    }

    /** `toString(String)`: the operand as written in a mnemonic; `r` stays
        whole, after a `-` for a pre-decrement and before a `+` for a
        post-increment. */
    function ToString(r: string): (s: string)
      ensures |s| == |r| + (if this == Unchanged then 0 else 1)
      ensures this != PreDecrement ==> s[..|r|] == r
      ensures this == PreDecrement ==> s[1..] == r && s[0] == '-'
      ensures this == PostIncrement ==> s[|r|] == '+'
    {
      match this
      case Unchanged => r
      case PostIncrement => r + "+"
      case PreDecrement => "-" + r
    }
  }

  /** `IndirectionType.values()`: every mode once, in declaration order. */
  function Values(): (vs: seq<IndirectionType>)
    ensures |vs| == 3
    ensures forall m: IndirectionType :: vs[m.Ordinal()] == m
  {
    [Unchanged, PostIncrement, PreDecrement]
  }

  /** `fromIndex`: a negative index reaches the fail-fast stub, an index past
      the last mode is `null`, and every other index names the mode declared
      at that position. */
  function FromIndex(index: Int32): (r: Lookup<IndirectionType>)
    ensures r == StubReached <==> index < 0
    ensures r == Absent <==> index >= 3
    ensures r.Found? ==> r.value.Ordinal() == index
  {
    var vs := Values();
    if index < 0 then StubReached
    else if index >= |vs| then Absent
    else Found(vs[index])
  }

  /** Every mode is found again at its own index. */
  lemma FromIndexOrdinal(m: IndirectionType)
    ensures FromIndex(m.Ordinal() as Int32) == Found(m)
  {
  }

  /** The encoding indices 0, 1 and 2 select the modes in declaration order. */
  lemma FromIndexInOrder()
    ensures FromIndex(0) == Found(Unchanged)
    ensures FromIndex(1) == Found(PostIncrement)
    ensures FromIndex(2) == Found(PreDecrement)
  {
  }

  /** No mode adjusts the register both before and after the access: one of
      its two operators is `Nil`, and that one is the identity. */
  lemma AtMostOneAdjusts(m: IndirectionType)
    ensures m.Pre() == Nil || m.Post() == Nil
    ensures (forall x: Int32 :: m.PreOperate(x) == x) || (forall x: Int32 :: m.PostOperate(x) == x)
  {
  }

  /** Applying the pre-access and then the post-access operator moves the
      register by the mode's net step: exactly, when the register is not at
      either end of the 32-bit range, and modulo 2^32 always. */
  lemma NetAdjustment(m: IndirectionType, x: Int32)
    ensures (m.PostOperate(m.PreOperate(x)) - (x + m.NetStep())) % Modulus == 0
    ensures MinInt < x < MaxInt ==> m.PostOperate(m.PreOperate(x)) == x + m.NetStep()
  {
  }

  /** The two boundary cases in which Java's `int` wraps around. */
  lemma NetAdjustmentWraps()
    ensures PostIncrement.PostOperate(PostIncrement.PreOperate(MaxInt)) == MinInt
    ensures PreDecrement.PostOperate(PreDecrement.PreOperate(MinInt)) == MaxInt
  {
  }

  /** If appending `a` to `r` gives the same string as prepending `b`, each
      character of `r` equals the one before it, so all of them equal `b`. */
  lemma {:induction false} ShiftedConstantAt(r: string, a: char, b: char, i: nat)
    requires r + [a] == [b] + r
    requires i < |r|
    ensures r[i] == b
  {
    assert (r + [a])[i] == ([b] + r)[i];
    if i > 0 {
      ShiftedConstantAt(r, a, b, i - 1);
    }
  }

  /** A string that reads the same with `a` appended as with `b` prepended
      is made of `b` alone, and then `a` is `b` too. */
  lemma {:induction false} ShiftedConstant(r: string, a: char, b: char)
    requires r + [a] == [b] + r
    ensures a == b && forall i :: 0 <= i < |r| ==> r[i] == b
  {
    forall i | 0 <= i < |r|
      ensures r[i] == b
    {
      ShiftedConstantAt(r, a, b, i);
    }
    assert (r + [a])[|r|] == ([b] + r)[|r|];
  }

  /** A post-increment operand and a pre-decrement operand on the same
      register never read the same. */
  lemma {:induction false} PostIncrementNotPreDecrement(r: string)
    ensures PostIncrement.ToString(r) != PreDecrement.ToString(r)
  {
    if r + "+" == "-" + r {
      ShiftedConstant(r, '+', '-');
    }
  }

  /** For any register name, the three modes render to three different
      operands, so the rendering tells the mode apart. */
  lemma {:induction false} ToStringDistinguishesModes(m1: IndirectionType, m2: IndirectionType, r: string)
    requires m1 != m2
    ensures m1.ToString(r) != m2.ToString(r)
  {
    if {m1, m2} == {PostIncrement, PreDecrement} {
      PostIncrementNotPreDecrement(r);
    }
  }

  /** For a fixed mode, the register name can be read back from the operand. */
  lemma ToStringDistinguishesRegisters(m: IndirectionType, r1: string, r2: string)
    requires m.ToString(r1) == m.ToString(r2)
    ensures r1 == r2
  {
  }

  /** The rendering of the register `X` in each mode. */
  lemma ToStringExamples()
    ensures Unchanged.ToString("X") == "X"
    ensures PostIncrement.ToString("X") == "X+"
    ensures PreDecrement.ToString("X") == "-X"
  {
  }
}
