/** The direction of an I/O port as a device description declares it. */
module Ports {
  import opened Outcome

  /** A port direction, in declaration order, with its one-letter
      abbreviation. */
  datatype PortType = Input | Output | Both {

    /** Position in the declaration. */
    function Ordinal(): (i: nat)
      ensures i < 3
    {
      match this
      case Input => 0
      case Output => 1
      case Both => 2
    }

    /** The letter the direction carries: `I`, `O` and `B` in declaration
        order. */
    function Abbrev(): (c: char)
      ensures c == "IOB"[Ordinal()]
    {
      match this
      case Input => 'I'
      case Output => 'O'
      case Both => 'B'
    }
  }

  /** `PortType.values()`: every direction, in declaration order. */
  function Values(): (vs: seq<PortType>)
    ensures |vs| == 3
    ensures forall t: PortType :: vs[t.Ordinal()] == t
  {
    [Input, Output, Both]
  }

  /** No two directions share an abbreviation. */
  lemma AbbrevInjective(t1: PortType, t2: PortType)
    requires t1.Abbrev() == t2.Abbrev()
    ensures t1 == t2
  {
  }

  /** The for-each loop of `fromChar`: the first of `types` whose
      abbreviation is `c`, or nothing when none is. */
  function Search(types: seq<PortType>, c: char): (r: Option<PortType>)
    ensures r.None? <==> forall t :: t in types ==> t.Abbrev() != c
    ensures r.Some? ==> exists i :: 0 <= i < |types| && types[i] == r.value
                                  && forall j :: 0 <= j < i ==> types[j].Abbrev() != c
    ensures r.Some? ==> r.value.Abbrev() == c
  {
    if types == [] then None
    else if types[0].Abbrev() == c then Some(types[0])
    else
      var rest := Search(types[1..], c);
      assert forall t :: t in types[1..] ==> t in types;
      assert forall t :: t in types ==> t == types[0] || t in types[1..];
      if rest.Some? then
        ghost var i :| 0 <= i < |types[1..]| && types[1..][i] == rest.value
                       && forall j :: 0 <= j < i ==> types[1..][j].Abbrev() != c;
        assert types[i + 1] == rest.value;
        rest
      else rest
  }

  /** Since abbreviations are unique, the search finds the same direction
      whatever order the directions are listed in. */
  lemma {:induction false} SearchOrderIndependent(s1: seq<PortType>, s2: seq<PortType>, c: char)
    requires forall t :: t in s1 <==> t in s2
    ensures Search(s1, c) == Search(s2, c)
  {
    var r1, r2 := Search(s1, c), Search(s2, c);
    if r1.Some? && r2.Some? {
      AbbrevInjective(r1.value, r2.value);
    }
  }

  /** `fromChar`: the direction whose abbreviation is `c`. Any other
      character reaches the fail-fast stub. */
  function FromChar(c: char): (r: Lookup<PortType>)
    ensures r.Found? <==> c == 'I' || c == 'O' || c == 'B'
    ensures r.Found? ==> r.value.Abbrev() == c
    ensures r != Absent
  {
    match Search(Values(), c)
    case Some(t) => Found(t)
    case None => StubReached
  }

  /** Round trip: every direction is found again from its abbreviation. */
  lemma FromCharAbbrev(t: PortType)
    ensures FromChar(t.Abbrev()) == Found(t)
  {
    AbbrevInjective(FromChar(t.Abbrev()).value, t);
  }

  /** The three abbreviations, and matching is case-sensitive. */
  lemma FromCharExamples()
    ensures FromChar('I') == Found(Input)
    ensures FromChar('O') == Found(Output)
    ensures FromChar('B') == Found(Both)
    ensures FromChar('i') == StubReached
    ensures FromChar('X') == StubReached
  {
  }
}
