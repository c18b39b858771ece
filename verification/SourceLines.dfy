/**
  Line tables: the scanner location mapper (packages/analysis/src/scanner-locations.ts) and the dense
  table of the CSS highlighter (packages/analysis/src/css/analysis/highlighting.ts).

  A source is a sequence of UTF-16 code units.  Offsets are 0-based, lines 1-based, columns 0-based.
 */
module SourceLines {
  import opened Options

  /** ECMA-262 section 12.3 has two line terminators that the scanner does not know. */
  datatype Endings = EcmaScript | Scanner

  predicate Terminator(endings: Endings, c: char) {
    c == '\n' || c == '\r' || (endings.EcmaScript? && EcmaScriptOnly(c))
  }

  predicate EcmaScriptOnly(c: char) {
    c == '\U{2028}' || c == '\U{2029}'
  }

  /** A line ends just before offset `i`; a carriage return with its line feed ends one line. */
  predicate StartsLine(source: string, endings: Endings, i: nat)
    requires i <= |source|
  {
    i == 0 || (Terminator(endings, source[i - 1]) && !(source[i - 1] == '\r' && i < |source| && source[i] == '\n'))
  }

  /** The line starts at offsets up to `n`, in order. */
  function Starts(source: string, endings: Endings, n: nat): seq<nat>
    requires n <= |source|
  {
    if n == 0 then [0]
    else Starts(source, endings, n - 1) + (if StartsLine(source, endings, n) then [n] else [])
  }

  function LineStarts(source: string, endings: Endings): seq<nat> {
    Starts(source, endings, |source|)
  }

  /** The 1-based line of an offset is the number of lines that start at or before it. */
  function LineAt(source: string, endings: Endings, offset: nat): nat
    requires offset <= |source|
  {
    |Starts(source, endings, offset)|
  }

  // ----- Properties of line starts -----

  predicate Increasing(starts: seq<nat>) {
    forall i, j | 0 <= i < j < |starts| :: starts[i] < starts[j]
  }

  lemma {:induction false} StartsIncrease(source: string, endings: Endings, n: nat)
    requires n <= |source|
    ensures var starts := Starts(source, endings, n);
            && Increasing(starts) && |starts| > 0 && starts[0] == 0
            && (forall i | 0 <= i < |starts| :: starts[i] <= n && StartsLine(source, endings, starts[i]))
  {
    if n > 0 {
      StartsIncrease(source, endings, n - 1);
    }
  }

  /** The starts up to an offset are the first ones of all starts, and the next one is beyond it. */
  lemma {:induction false} StartsArePrefix(source: string, endings: Endings, n: nat, m: nat)
    requires n <= m <= |source|
    ensures Starts(source, endings, n) <= Starts(source, endings, m)
    ensures |Starts(source, endings, n)| < |Starts(source, endings, m)| ==>
              n < Starts(source, endings, m)[|Starts(source, endings, n)|]
    decreases m
  {
    if n < m {
      StartsArePrefix(source, endings, n, m - 1);
    }
  }

  lemma {:induction false} StartsAreComplete(source: string, endings: Endings, n: nat, i: nat)
    requires i <= n <= |source| && StartsLine(source, endings, i)
    ensures i in Starts(source, endings, n)
  {
    if i < n {
      StartsAreComplete(source, endings, n - 1, i);
    }
  }

  /** `index` is the line index of `offset` in a table: the last start that is not beyond it. */
  predicate IsLineIndex(starts: seq<nat>, offset: nat, index: nat) {
    index < |starts| && starts[index] <= offset && (index + 1 < |starts| ==> offset < starts[index + 1])
  }

  lemma LineIndexIsLineAt(source: string, endings: Endings, offset: nat, index: nat)
    requires offset <= |source| && IsLineIndex(LineStarts(source, endings), offset, index)
    ensures index + 1 == LineAt(source, endings, offset)
  {
    var starts := LineStarts(source, endings);
    StartsIncrease(source, endings, |source|);
    StartsIncrease(source, endings, offset);
    StartsArePrefix(source, endings, offset, |source|);
    var n := LineAt(source, endings, offset);
    assert starts[n - 1] == Starts(source, endings, offset)[n - 1] <= offset;
    assert forall i | 0 <= i < n :: starts[i] <= starts[n - 1];
  }

  // ----- computeLineStarts -----

  /** `exec` of the line ending expression: the end of the first match at or after `from`. */
  method ExecLineEnding(source: string, endings: Endings, from: nat) returns (lastIndex: Option<nat>)
    requires from <= |source|
    requires from > 0 ==> !(source[from - 1] == '\r' && from < |source| && source[from] == '\n')
    ensures lastIndex.None? ==> forall i | from < i <= |source| :: !StartsLine(source, endings, i)
    ensures lastIndex.Some? ==> from < lastIndex.value <= |source| && StartsLine(source, endings, lastIndex.value)
    ensures lastIndex.Some? ==> forall i | from < i < lastIndex.value :: !StartsLine(source, endings, i)
  {
    var i := from;
    while i < |source|
      invariant from <= i <= |source|
      invariant forall k | from <= k < i :: !Terminator(endings, source[k])
    {
      if source[i] == '\r' && i + 1 < |source| && source[i + 1] == '\n' {
        return Some(i + 2);
      }
      if Terminator(endings, source[i]) {
        return Some(i + 1);
      }
      i := i + 1;
    }
    lastIndex := None;
  }

  lemma NoStartsBetween(source: string, endings: Endings, n: nat, m: nat)
    requires n <= m <= |source| && forall i | n < i <= m :: !StartsLine(source, endings, i)
    ensures Starts(source, endings, m) == Starts(source, endings, n)
    decreases m
  {
    if n < m {
      NoStartsBetween(source, endings, n, m - 1);
    }
  }

  method ComputeLineStarts(source: string, endings: Endings) returns (starts: seq<nat>)
    ensures starts == LineStarts(source, endings)
  {
    starts := [0];
    var lastIndex := 0;
    var found := ExecLineEnding(source, endings, 0);
    while found.Some?
      invariant lastIndex <= |source| && StartsLine(source, endings, lastIndex)
      invariant starts == Starts(source, endings, lastIndex)
      invariant found.None? ==> forall i | lastIndex < i <= |source| :: !StartsLine(source, endings, i)
      invariant found.Some? ==> lastIndex < found.value <= |source| && StartsLine(source, endings, found.value)
      invariant found.Some? ==> forall i | lastIndex < i < found.value :: !StartsLine(source, endings, i)
      decreases |source| - lastIndex, if found.Some? then 1 else 0
    {
      NoStartsBetween(source, endings, lastIndex, found.value - 1);
      lastIndex := found.value;
      starts := starts + [lastIndex];
      found := ExecLineEnding(source, endings, lastIndex);
    }
    NoStartsBetween(source, endings, lastIndex, |source|);
  }

  // ----- findLineIndex -----

  method FindLineIndex(lineStarts: seq<nat>, offset: nat) returns (low: nat)
    requires |lineStarts| > 0 && lineStarts[0] == 0 && Increasing(lineStarts)
    ensures IsLineIndex(lineStarts, offset, low)
  {
    low := 0;
    var high := |lineStarts| - 1;
    while low < high
      invariant 0 <= low <= high < |lineStarts|
      invariant lineStarts[low] <= offset
      invariant high + 1 < |lineStarts| ==> offset < lineStarts[high + 1]
    {
      var middle := (low + high + 1) / 2;
      if lineStarts[middle] <= offset {
        low := middle;
      } else {
        high := middle - 1;
      }
    }
  }

  // ----- ScannerLocationMapper -----

  datatype Position = Position(line: int, column: int)

  /** The position names an offset of the source: an ECMAScript line, and no further than the end. */
  predicate InSource(source: string, p: Position) {
    var starts := LineStarts(source, EcmaScript);
    1 <= p.line <= |starts| && 0 <= p.column && starts[p.line - 1] + p.column <= |source|
  }

  function OffsetOf(source: string, p: Position): nat
    requires InSource(source, p)
  {
    LineStarts(source, EcmaScript)[p.line - 1] + p.column
  }

  /** The line and column of an offset, by counting. */
  function PositionOf(source: string, endings: Endings, offset: nat): Position
    requires offset <= |source|
  {
    StartsIncrease(source, endings, offset);
    var starts := Starts(source, endings, offset);
    Position(|starts|, offset - starts[|starts| - 1])
  }

  function Mapped(source: string, p: Position): Position {
    if InSource(source, p) then PositionOf(source, Scanner, OffsetOf(source, p)) else p
  }

  class ScannerLocationMapper {
    const source: string
    var ecmascriptLineStarts: seq<nat>
    var scannerLineStarts: seq<nat>

    ghost predicate Valid()
      reads this
    {
      ecmascriptLineStarts == LineStarts(source, EcmaScript) && scannerLineStarts == LineStarts(source, Scanner)
    }

    constructor (source: string)
      ensures Valid() && this.source == source
    {
      this.source := source;
      new;
      ecmascriptLineStarts := ComputeLineStarts(source, EcmaScript);
      scannerLineStarts := ComputeLineStarts(source, Scanner);
    }

    method PositionAt(line: int, column: int) returns (p: Position)
      requires Valid()
      ensures p == Mapped(source, Position(line, column))
    {
      if line < 1 || line > |ecmascriptLineStarts| || column < 0 {
        return Position(line, column);
      }
      var offset := ecmascriptLineStarts[line - 1] + column;
      if offset > |source| {
        return Position(line, column);
      }
      StartsIncrease(source, Scanner, |source|);
      var index := FindLineIndex(scannerLineStarts, offset);
      p := Position(index + 1, offset - scannerLineStarts[index]);
      LineIndexIsLineAt(source, Scanner, offset, index);
      StartsArePrefix(source, Scanner, offset, |source|);
    }

    method Line(line: int) returns (mapped: int)
      requires Valid()
      ensures mapped == Mapped(source, Position(line, 0)).line
    {
      var p := PositionAt(line, 0);
      mapped := p.line;
    }
  }

  // ----- What the mapping keeps -----

  /**
    Mapping keeps the absolute offset, and the mapped column lies inside the mapped scanner line.
   */
  lemma MappingKeepsTheOffset(source: string, p: Position)
    requires InSource(source, p)
    ensures var q, starts := Mapped(source, p), LineStarts(source, Scanner);
            && 1 <= q.line <= |starts| && 0 <= q.column
            && starts[q.line - 1] + q.column == OffsetOf(source, p)
            && (q.line < |starts| ==> starts[q.line - 1] + q.column < starts[q.line])
  {
    var offset := OffsetOf(source, p);
    StartsIncrease(source, Scanner, offset);
    StartsArePrefix(source, Scanner, offset, |source|);
  }

  predicate AtOrBefore(p: Position, q: Position) {
    p.line < q.line || (p.line == q.line && p.column <= q.column)
  }

  /** Mapping keeps the order of offsets. */
  lemma MappingIsMonotone(source: string, p: Position, q: Position)
    requires InSource(source, p) && InSource(source, q) && OffsetOf(source, p) <= OffsetOf(source, q)
    ensures AtOrBefore(Mapped(source, p), Mapped(source, q))
    ensures OffsetOf(source, p) < OffsetOf(source, q) ==> Mapped(source, p) != Mapped(source, q)
  {
    var a, b := OffsetOf(source, p), OffsetOf(source, q);
    StartsIncrease(source, Scanner, a);
    StartsIncrease(source, Scanner, b);
    StartsArePrefix(source, Scanner, a, b);
  }

  /** Every scanner line start is an ECMAScript line start, so there are no more of them up to any offset. */
  lemma {:induction false} ScannerHasFewerLines(source: string, n: nat)
    requires n <= |source|
    ensures LineAt(source, Scanner, n) <= LineAt(source, EcmaScript, n)
  {
    if n > 0 {
      ScannerHasFewerLines(source, n - 1);
    }
  }

  /** The position is within its own ECMAScript line. */
  predicate InLine(source: string, p: Position)
    requires InSource(source, p)
  {
    p.line < |LineStarts(source, EcmaScript)| ==> OffsetOf(source, p) < LineStarts(source, EcmaScript)[p.line]
  }

  lemma InLineIsLineAt(source: string, p: Position)
    requires InSource(source, p) && InLine(source, p)
    ensures LineAt(source, EcmaScript, OffsetOf(source, p)) == p.line
  {
    LineIndexIsLineAt(source, EcmaScript, OffsetOf(source, p), p.line - 1);
  }

  /** A position within its line maps to a line no later than its own; in particular `line(l) <= l`. */
  lemma MappingNeverMovesDown(source: string, p: Position)
    requires InSource(source, p) && InLine(source, p)
    ensures Mapped(source, p).line <= p.line
  {
    InLineIsLineAt(source, p);
    ScannerHasFewerLines(source, OffsetOf(source, p));
  }

  lemma LineNeverIncreases(source: string, line: int)
    ensures Mapped(source, Position(line, 0)).line <= line
  {
    if InSource(source, Position(line, 0)) {
      StartsIncrease(source, EcmaScript, |source|);
      MappingNeverMovesDown(source, Position(line, 0));
    }
  }

  lemma {:induction false} SameStartsUpTo(source: string, n: nat)
    requires n <= |source| && forall i | 0 <= i < n :: !EcmaScriptOnly(source[i])
    ensures Starts(source, Scanner, n) == Starts(source, EcmaScript, n)
  {
    if n > 0 {
      SameStartsUpTo(source, n - 1);
    }
  }

  /** Each terminator that only ECMAScript knows puts the scanner one more line behind. */
  lemma {:induction false} ScannerFallsBehind(source: string, n: nat, i: nat)
    requires i < n <= |source| && EcmaScriptOnly(source[i])
    ensures LineAt(source, Scanner, n) < LineAt(source, EcmaScript, n)
  {
    if n - 1 == i {
      ScannerHasFewerLines(source, i);
    } else {
      ScannerFallsBehind(source, n - 1, i);
    }
  }

  /**
    Exactly where the mapper matters: a position within its line stays where it is if and only if no
    U+2028 or U+2029 stands before it.
   */
  lemma MapperMattersExactly(source: string, p: Position)
    requires InSource(source, p) && InLine(source, p)
    ensures Mapped(source, p) == p <==> forall i | 0 <= i < OffsetOf(source, p) :: !EcmaScriptOnly(source[i])
    ensures Mapped(source, p) != p ==> Mapped(source, p).line < p.line
  {
    var offset := OffsetOf(source, p);
    InLineIsLineAt(source, p);
    if i :| 0 <= i < offset && EcmaScriptOnly(source[i]) {
      ScannerFallsBehind(source, offset, i);
    } else {
      SameStartsUpTo(source, offset);
      StartsArePrefix(source, EcmaScript, offset, |source|);
    }
  }

  /**
    Without U+2028 and U+2029 the mapping is the identity on every position that is within its line, and
    on every position outside the source: the mapper may be skipped.
   */
  lemma MapperMayBeSkipped(source: string, p: Position)
    requires forall i | 0 <= i < |source| :: !EcmaScriptOnly(source[i])
    requires InSource(source, p) ==> InLine(source, p)
    ensures Mapped(source, p) == p
  {
    if InSource(source, p) {
      MapperMattersExactly(source, p);
    }
  }

  // ----- The dense table of the CSS highlighter -----

  method BuildSourceMap(source: string) returns (lineAt: array<nat>, lineStarts: seq<nat>)
    ensures fresh(lineAt) && lineAt.Length == |source| + 1
    ensures lineStarts == LineStarts(source, Scanner)
    ensures forall k | 0 <= k <= |source| :: lineAt[k] == LineAt(source, Scanner, k)
  {
    lineAt := new nat[|source| + 1];
    lineStarts := [0];
    var line, i := 1, 0;
    while i < |source|
      invariant 0 <= i <= |source|
      invariant lineStarts == Starts(source, Scanner, i) && line == |lineStarts|
      invariant i > 0 ==> !(source[i - 1] == '\r' && i < |source| && source[i] == '\n')
      invariant forall k | 0 <= k < i :: lineAt[k] == LineAt(source, Scanner, k)
    {
      lineAt[i] := line;
      var ch := source[i];
      if ch == '\r' {
        if i + 1 < |source| && source[i + 1] == '\n' {
          i := i + 1;
          lineAt[i] := line;
        }
        line := line + 1;
        lineStarts := lineStarts + [i + 1];
      } else if ch == '\n' {
        line := line + 1;
        lineStarts := lineStarts + [i + 1];
      }
      i := i + 1;
    }
    lineAt[|source|] := line;
  }

  /** `positionAt`: the offset is clamped, and looked up. */
  method PositionInTable(lineAt: array<nat>, lineStarts: seq<nat>, source: string, offset: int) returns (p: Position)
    requires lineAt.Length == |source| + 1 && lineStarts == LineStarts(source, Scanner)
    requires forall k | 0 <= k <= |source| :: lineAt[k] == LineAt(source, Scanner, k)
    ensures p == PositionOf(source, Scanner, if offset < 0 then 0 else if offset > |source| then |source| else offset)
  {
    var clamped := if offset < 0 then 0 else if offset > |source| then |source| else offset;
    StartsIncrease(source, Scanner, clamped);
    StartsArePrefix(source, Scanner, clamped, |source|);
    var line := lineAt[clamped];
    p := Position(line, clamped - lineStarts[line - 1]);
  }

  /**
    The dense table and the binary search agree: on any offset, what `PositionInTable` looks up is what
    any index found by `FindLineIndex` in the computed line starts gives.
   */
  lemma TableAgreesWithSearch(source: string, offset: nat, index: nat)
    requires offset <= |source| && IsLineIndex(LineStarts(source, Scanner), offset, index)
    ensures PositionOf(source, Scanner, offset) == Position(index + 1, offset - LineStarts(source, Scanner)[index])
  {
    StartsIncrease(source, Scanner, offset);
    LineIndexIsLineAt(source, Scanner, offset, index);
    StartsArePrefix(source, Scanner, offset, |source|);
  }

  /** A final line feed starts one more line, at the end of the source: the table's last entry is its line. */
  lemma FinalLineFeedStartsALine(source: string)
    requires source != "" && source[|source| - 1] == '\n'
    ensures LineAt(source, Scanner, |source|) == LineAt(source, Scanner, |source| - 1) + 1
    ensures LineStarts(source, Scanner)[|LineStarts(source, Scanner)| - 1] == |source|
  {
    assert StartsLine(source, Scanner, |source|);
  }
}
