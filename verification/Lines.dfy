// file.go: offsets to lines.
module Lines {
  import opened Syntax

  // sort.Search: the first index whose entry exceeds x.
  function FirstAbove(a: seq<nat>, x: nat): (i: nat)
    ensures i <= |a| && (i < |a| ==> a[i] > x) && forall k :: 0 <= k < i ==> a[k] <= x
  {
    if a == [] || a[0] > x then 0 else 1 + FirstAbove(a[1..], x)
  }

  // The line of a position: 1 more than the last index whose line starts at or
  // before it, so FirstAbove; 0 for no position.
  function LineOf(lines: seq<nat>, p: Pos): nat {
    match p
    case NoPos => 0
    case PosAt(off) => FirstAbove(lines, off)
  }

  // Line starts as AddLine builds them.
  predicate Increasing(lines: seq<nat>) {
    |lines| > 0 && lines[0] == 0 && forall i, j :: 0 <= i < j < |lines| ==> lines[i] < lines[j]
  }

  // The offsets up to off at which a line of the input starts.
  function LineStarts(input: string, off: nat): seq<nat>
    requires off <= |input|
  {
    if off == 0 then [0]
    else LineStarts(input, off - 1) + (if input[off - 1] == '\n' then [off] else [])
  }

  function Newlines(input: string, off: nat): nat
    requires off <= |input|
  {
    if off == 0 then 0 else Newlines(input, off - 1) + (if input[off - 1] == '\n' then 1 else 0)
  }

  lemma {:induction false} LineStartsIncreasing(input: string, off: nat)
    requires off <= |input|
    ensures Increasing(LineStarts(input, off)) && |LineStarts(input, off)| == 1 + Newlines(input, off)
    ensures forall i :: 0 <= i < |LineStarts(input, off)| ==> LineStarts(input, off)[i] <= off
  {
    if off > 0 {
      LineStartsIncreasing(input, off - 1);
    }
  }

  lemma {:induction false} LineStartsPrefix(input: string, a: nat, b: nat)
    requires a <= b <= |input|
    ensures LineStarts(input, a) <= LineStarts(input, b)
    ensures forall i :: |LineStarts(input, a)| <= i < |LineStarts(input, b)| ==> LineStarts(input, b)[i] > a
    decreases b
  {
    if a < b {
      LineStartsPrefix(input, a, b - 1);
    }
  }

  // Once the scanner has passed an offset, its line is 1 plus the newlines before it.
  lemma LineOfOffset(input: string, off: nat, scanned: nat)
    requires off <= scanned <= |input|
    ensures LineOf(LineStarts(input, scanned), PosAt(off)) == 1 + Newlines(input, off)
  {
    var lines := LineStarts(input, scanned);
    LineStartsIncreasing(input, off);
    LineStartsPrefix(input, off, scanned);
    var n := |LineStarts(input, off)|;
    assert forall i :: 0 <= i < n ==> lines[i] == LineStarts(input, off)[i];
    var k := FirstAbove(lines, off);
    assert k < n ==> lines[k] > off;
    assert n < |lines| ==> lines[n] > off;
  }

  class File {
    var lines: seq<nat>

    constructor ()
      ensures lines == [0]
    {
      lines := [0];
    }

    // AddLine ignores an offset that is not past the last line start.
    method AddLine(offset: nat)
      requires Increasing(lines)
      modifies this
      ensures Increasing(lines)
      ensures lines == if offset > old(lines)[|old(lines)| - 1] then old(lines) + [offset] else old(lines)
    {
      if lines[|lines| - 1] < offset {
        lines := lines + [offset];
      }
    }

    // sort.Search bisects.
    method SearchInts(x: nat) returns (i: int)
      requires Increasing(lines)
      ensures i == FirstAbove(lines, x) - 1
    {
      var lo, hi := 0, |lines|;
      while lo < hi
        invariant 0 <= lo <= hi <= |lines|
        invariant forall k :: 0 <= k < lo ==> lines[k] <= x
        invariant forall k :: hi <= k < |lines| ==> lines[k] > x
      {
        var mid := (lo + hi) / 2;
        if lines[mid] > x { hi := mid; } else { lo := mid + 1; }
      }
      assert lo < |lines| ==> lines[lo] > x;
      i := lo - 1;
    }

    // The line and column, both from 1.
    method PositionFor(p: Pos) returns (line: nat, column: nat)
      requires Increasing(lines)
      ensures line == LineOf(lines, p)
      ensures p.PosAt? ==> line >= 1 && column == p.off - lines[line - 1] + 1
    {
      if p.NoPos? {
        return 0, 0;
      }
      var i := SearchInts(p.off);
      line, column := i + 1, p.off - lines[i] + 1;
    }
  }
}
