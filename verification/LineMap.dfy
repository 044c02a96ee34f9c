/** From source lines to instructions, and the breakpoints set through that map. */
module LineMap {
  /** Instructions come in the order of their lines; lines count from 1. */
  predicate InLineOrder(lines: seq<nat>) {
    && (forall k :: 0 <= k < |lines| ==> lines[k] >= 1)
    && (forall j, k :: 0 <= j <= k < |lines| ==> lines[j] <= lines[k])
  }

  /** k is the first instruction at or after a line. */
  predicate IsFirstAtOrAfter(lines: seq<nat>, line: nat, k: nat) {
    && k < |lines| && line <= lines[k]
    && forall j :: 0 <= j < k ==> lines[j] < line
  }

  /** The loop over instructions, each claiming the lines since the one before. */
  method BuildLineMap(lines: seq<nat>) returns (m: map<nat, nat>)
    requires InLineOrder(lines)
    ensures forall line :: line in m <==> |lines| > 0 && 1 <= line <= lines[|lines| - 1]
    ensures forall line :: line in m ==> IsFirstAtOrAfter(lines, line, m[line])
  {
    m := map[];
    if |lines| == 0 { return; }
    var prevInstruction, prevLine := 0, 1;
    for k := 0 to |lines|
      invariant prevInstruction == k && prevLine == if k == 0 then 1 else lines[k - 1] + 1
      invariant forall line :: line in m <==> 1 <= line < prevLine
      invariant forall line :: line in m ==> m[line] < k && IsFirstAtOrAfter(lines, line, m[line])
    {
      var i := prevLine;
      while i <= lines[k]
        invariant prevLine <= i <= (if prevLine <= lines[k] then lines[k] + 1 else prevLine)
        invariant forall line :: line in m <==> 1 <= line < i
        invariant forall line :: line in m ==> m[line] <= k && IsFirstAtOrAfter(lines, line, m[line])
      {
        assert IsFirstAtOrAfter(lines, i, k);
        m := m[i := prevInstruction];
        i := i + 1;
      }
      prevInstruction := prevInstruction + 1;
      prevLine := lines[k] + 1;
    }
  }

  /** The map is the lower adjoint of "line of": it sends a line to at most k exactly when the line
      is at most that of k. */
  lemma LowerAdjoint(lines: seq<nat>, line: nat, first: nat, k: nat)
    requires InLineOrder(lines) && IsFirstAtOrAfter(lines, line, first) && k < |lines|
    ensures first <= k <==> line <= lines[k]
  {
  }

  datatype Outcome = Done | InvalidLine | Misaligned | AlreadySet | NotSet

  /** The address of a request: a line through the map, or an instruction address. */
  function Address(lineMap: map<nat, nat>, val: nat, isLine: bool): nat
    requires isLine ==> val in lineMap
  {
    if isLine then 4 * lineMap[val] else val
  }

  predicate NoDuplicates(s: seq<nat>) {
    forall i, j :: 0 <= i < j < |s| ==> s[i] != s[j]
  }

  class Breakpoints {
    var lineMap: map<nat, nat>
    var breakpoints: seq<nat>

    predicate Valid()
      reads this
    {
      NoDuplicates(breakpoints) && forall b :: b in breakpoints ==> b % 4 == 0
    }

    constructor (lineMap: map<nat, nat>)
      ensures Valid() && this.lineMap == lineMap && breakpoints == []
    {
      this.lineMap := lineMap;
      breakpoints := [];
    }

    method CheckBreakpoint(address: nat) returns (found: bool)
      ensures found == (address in breakpoints)
    {
      found := false;
      for i := 0 to |breakpoints|
        invariant found == (address in breakpoints[..i])
      {
        if breakpoints[i] == address { found := true; }
      }
    }

    method AddBreakpoint(val: nat, isLine: bool) returns (r: Outcome)
      requires Valid()
      modifies this`breakpoints
      ensures Valid()
      ensures r ==
        if isLine && val !in lineMap then InvalidLine
        else if !isLine && val % 4 != 0 then Misaligned
        else if Address(lineMap, val, isLine) in old(breakpoints) then AlreadySet
        else Done
      ensures breakpoints == old(breakpoints) + if r == Done then [Address(lineMap, val, isLine)] else []
    {
      if isLine {
        if val !in lineMap { return InvalidLine; }
        var bp := lineMap[val] * 4;
        var found := CheckBreakpoint(bp);
        if found { return AlreadySet; }
        breakpoints := breakpoints + [bp];
      } else {
        if val % 4 != 0 { return Misaligned; }
        var found := CheckBreakpoint(val);
        if found { return AlreadySet; }
        breakpoints := breakpoints + [val];
      }
      return Done;
    }

    method RemoveBreakpoint(val: nat, isLine: bool) returns (r: Outcome)
      requires Valid()
      modifies this`breakpoints
      ensures Valid()
      ensures r ==
        if isLine && val !in lineMap then InvalidLine
        else if !isLine && val % 4 != 0 then Misaligned
        else if Address(lineMap, val, isLine) !in old(breakpoints) then NotSet
        else Done
      ensures r != Done ==> breakpoints == old(breakpoints)
      ensures r == Done ==> forall b :: b in breakpoints <==>
        b in old(breakpoints) && b != Address(lineMap, val, isLine)
    {
      if isLine && val !in lineMap { return InvalidLine; }
      if !isLine && val % 4 != 0 { return Misaligned; }
      var bp := if isLine then lineMap[val] * 4 else val;
      var found := CheckBreakpoint(bp);
      if !found { return NotSet; }
      breakpoints := Without(breakpoints, bp);
      return Done;
    }
  }

  /** All elements but x, in order. */
  function Without(s: seq<nat>, x: nat): (r: seq<nat>)
    ensures forall b :: b in r <==> b in s && b != x
    ensures NoDuplicates(s) ==> NoDuplicates(r)
  {
    if s == [] then []
    else if s[0] == x then Without(s[1..], x)
    else
      assert NoDuplicates(s) ==> NoDuplicates(s[1..]) && s[0] !in s[1..];
      [s[0]] + Without(s[1..], x)
  }

  /** A breakpoint on a line of the program, once set, is at the first instruction on or after it. */
  lemma BreakpointStopsAtFirst(lines: seq<nat>, m: map<nat, nat>, line: nat, k: nat)
    requires InLineOrder(lines) && line in m && IsFirstAtOrAfter(lines, line, m[line]) && k < |lines|
    ensures 4 * k >= Address(m, line, true) <==> lines[k] >= line
  {
    LowerAdjoint(lines, line, m[line], k);
  }
}
