/**
  Virtual file descriptors of packages/shared/src/fs-cache/hook.ts: reads from recorded content with a
  position, and the loop that captures the content of a file that was really opened.
 */
module FsDescriptors {
  import opened Options
  import opened FsNodes

  function Min(a: int, b: int): int {
    if a < b then a else b
  }

  function Max(a: int, b: int): int {
    if a < b then b else a
  }

  /** `Math.max(0, Math.min(content.length, requestedStart))`. */
  function Clamp(length: nat, requested: int): (start: nat)
    ensures start <= length && (0 <= requested <= length ==> start == requested)
  {
    Max(0, Min(length, requested))
  }

  /** How many bytes `Buffer.copy` moves, for a target offset that is not negative. */
  function Copied(content: nat, start: nat, length: int, room: int): (count: nat)
    requires start <= content
    ensures start + count <= content && count <= Max(0, length) && count <= Max(0, room)
  {
    Max(0, Min(Min(content, start + length) - start, room))
  }

  datatype ReadResult = Count(bytes: nat) | Failed(error: ErrorSnapshot) | NoContent | OutOfRange

  // ----- Runs of calls -----

  /** One call on a descriptor; `room` is what the target has left after the offset. */
  datatype Call = Sequential(length: int, room: int) | Positional(at: int, length: int, room: int) | Rest

  function CallOf(requested: Option<int>, length: int, room: int): Call {
    if requested.None? then Sequential(length, room) else Positional(requested.value, length, room)
  }

  /** The bytes that a call gives and the position after it. */
  function Step(content: Bytes, position: nat, call: Call): (Bytes, nat)
    requires position <= |content|
  {
    match call
    case Sequential(length, room) =>
      var count := Copied(|content|, position, length, room);
      (content[position..position + count], position + count)
    case Positional(at, length, room) =>
      var start := Clamp(|content|, at);
      (content[start..start + Copied(|content|, start, length, room)], position)
    case Rest => (content[position..], |content|)
  }

  function Position(content: Bytes, calls: seq<Call>): (p: nat)
    ensures p <= |content|
  {
    if calls == [] then 0 else Step(content, Position(content, calls[..|calls| - 1]), calls[|calls| - 1]).1
  }

  lemma SlicedRead(content: Bytes, position: nat, requested: Option<int>, length: int, room: int)
    requires position <= |content|
    ensures var start := Clamp(|content|, requested.OrElse(position));
            var count := Copied(|content|, start, length, room);
            Step(content, position, CallOf(requested, length, room))
            == (content[start..start + count], if requested.None? then start + count else position)
  {
  }

  lemma PositionAfter(content: Bytes, calls: seq<Call>, call: Call)
    ensures Position(content, calls + [call]) == Step(content, Position(content, calls), call).1
  {
    assert (calls + [call])[..|calls|] == calls;
  }

  /** Everything the calls without an explicit position returned, in order. */
  function ReadSoFar(content: Bytes, calls: seq<Call>): Bytes {
    if calls == [] then []
    else
      var before, last := calls[..|calls| - 1], calls[|calls| - 1];
      ReadSoFar(content, before) + if last.Positional? then [] else Step(content, Position(content, before), last).0
  }

  /**
    Reads conserve content: whatever calls are made, those without an explicit position return
    consecutive slices that together are the content up to the position, and positional ones change nothing.
   */
  lemma {:induction false} ReadsConserveContent(content: Bytes, calls: seq<Call>)
    ensures ReadSoFar(content, calls) == content[..Position(content, calls)]
  {
    if calls != [] {
      ReadsConserveContent(content, calls[..|calls| - 1]);
    }
  }

  /**
    A read gives the bytes from its start on, as many as were asked for, as the target has room for, or as are
    left, whichever is least.  The start is the descriptor's position, which moves behind them, or the one
    given, brought into the content, and then the descriptor stays where it is.
   */
  lemma ReadGivesExactly(content: Bytes, position: nat, requested: Option<int>, length: int, room: int)
    requires position <= |content|
    ensures var start := match requested
                         case None => position
                         case Some(at) => if at < 0 then 0 else if at > |content| then |content| else at;
            var (bytes, after) := Step(content, position, CallOf(requested, length, room));
            && start + |bytes| <= |content| && bytes == content[start..start + |bytes|]
            && (length <= 0 || room <= 0 ==> bytes == [])
            && (length >= 0 && room >= 0 ==>
                  && |bytes| <= length && |bytes| <= room
                  && (|bytes| == length || |bytes| == room || start + |bytes| == |content|))
            && after == if requested.None? then start + |bytes| else position
  {
  }

  /** A read that had room and found nothing, or a `readFile`, means that everything was read. */
  lemma ReadUntilNothingIsEverything(content: Bytes, calls: seq<Call>, last: Call)
    requires last.Rest? || (last.Sequential? && last.length > 0 && last.room > 0)
    requires last.Rest? || Step(content, Position(content, calls), last).0 == []
    ensures ReadSoFar(content, calls + [last]) == content
  {
    ReadsConserveContent(content, calls + [last]);
    assert (calls + [last])[..|calls|] == calls;
  }

  /** `target` holds `bytes` from `offset` on, and elsewhere what it held before. */
  ghost predicate Filled(before: seq<bv8>, after: seq<bv8>, offset: nat, bytes: Bytes) {
    && |after| == |before|
    && (bytes == [] || offset + |bytes| <= |before|)
    && forall i | 0 <= i < |before| :: after[i] == if offset <= i < offset + |bytes| then bytes[i - offset] else before[i]
  }

  /** The bytes that `Buffer.copy` moves. */
  method Copy(bytes: Bytes, target: array<bv8>, offset: nat)
    requires bytes == [] || offset + |bytes| <= target.Length
    modifies target
    ensures Filled(old(target[..]), target[..], offset, bytes)
  {
    var i := 0;
    while i < |bytes|
      invariant i <= |bytes|
      invariant forall k | 0 <= k < target.Length ::
        target[k] == if offset <= k < offset + i then bytes[k - offset] else old(target[k])
    {
      target[offset + i] := bytes[i];
      i := i + 1;
    }
  }

  class VirtualDescriptor {
    const content: Option<Bytes>
    const readError: Option<ErrorSnapshot>
    var position: int
    /** The calls that have been answered from the content. */
    ghost var calls: seq<Call>

    ghost predicate Valid()
      reads this
    {
      position == if content.Some? then Position(content.value, calls) else 0
    }

    constructor (content: Option<Bytes>, readError: Option<ErrorSnapshot>)
      ensures Valid() && this.content == content && this.readError == readError && position == 0 && calls == []
    {
      this.content, this.readError, position, calls := content, readError, 0, [];
    }

    /** The last part of `readVirtual`: copies what there is, and moves on if no position was given. */
    method Fill(target: array<bv8>, offset: nat, length: int, requested: Option<int>) returns (count: nat)
      requires Valid() && content.Some?
      modifies this`position, this`calls, target
      ensures Valid()
      ensures var call := CallOf(requested, length, target.Length - offset);
              var (bytes, after) := Step(content.value, Position(content.value, old(calls)), call);
              && calls == old(calls) + [call] && position == after && count == |bytes|
              && Filled(old(target[..]), target[..], offset, bytes)
    {
      hide Position, Step, CallOf, Clamp, Copied, Filled;
      var bytes := content.value;
      var start := Clamp(|bytes|, requested.OrElse(position));
      count := Copied(|bytes|, start, length, target.Length - offset);
      SlicedRead(bytes, position, requested, length, target.Length - offset);
      PositionAfter(bytes, calls, CallOf(requested, length, target.Length - offset));
      Copy(bytes[start..start + count], target, offset);
      if requested.None? {
        position := start + count;
      }
      calls := calls + [CallOf(requested, length, target.Length - offset)];
    }

    /** `readVirtual`: no position means the descriptor's own, which then moves past what was read. */
    method Read(target: array<bv8>, offset: int, length: int, requested: Option<int>) returns (result: ReadResult)
      requires Valid()
      modifies this`position, this`calls, target
      ensures Valid()
      ensures readError.Some? ==> result == Failed(readError.value)
      ensures readError.None? && content.None? ==> result == NoContent
      ensures !result.Count? ==> position == old(position) && calls == old(calls) && target[..] == old(target[..])
      ensures readError.None? && content.Some? ==>
                if offset < 0 then result == OutOfRange
                else
                  var call := CallOf(requested, length, target.Length - offset);
                  var (bytes, after) := Step(content.value, Position(content.value, old(calls)), call);
                  && calls == old(calls) + [call] && position == after && result == Count(|bytes|)
                  && Filled(old(target[..]), target[..], offset, bytes)
    {
      if readError.Some? {
        return Failed(readError.value);
      }
      if content.None? {
        return NoContent;
      }
      if offset < 0 {
        return OutOfRange;
      }
      var count := Fill(target, offset, length, requested);
      result := Count(count);
    }

    /** `readFileSync` on a virtual descriptor: what is left, after which nothing is. */
    method ReadFile() returns (result: ReadResult, rest: Bytes)
      requires Valid()
      modifies this`position, this`calls
      ensures Valid()
      ensures readError.Some? ==> result == Failed(readError.value)
      ensures readError.None? && content.None? ==> result == NoContent
      ensures !result.Count? ==> position == old(position) && calls == old(calls) && rest == []
      ensures readError.None? && content.Some? ==>
                && result == Count(|rest|) && calls == old(calls) + [Rest]
                && rest == content.value[old(position)..] && position == |content.value|
    {
      if readError.Some? {
        return Failed(readError.value), [];
      }
      if content.None? {
        return NoContent, [];
      }
      rest := content.value[position..];
      position := |content.value|;
      calls := calls + [Rest];
      PositionAfter(content.value, old(calls), Rest);
      result := Count(|rest|);
    }
  }

  // ----- Capturing an opened file -----

  const CHUNK: nat := 64 * 1024

  /**
    `readDescriptorContent`.  `given(p)` is how many bytes the operating system chooses to give at
    position `p`: at least one while there are any, at most a chunk.
   */
  method ReadDescriptorContent(file: Bytes, given: nat -> nat) returns (content: Bytes)
    requires forall p | 0 <= p < |file| :: 1 <= given(p) <= CHUNK && p + given(p) <= |file|
    ensures content == file
  {
    content := [];
    var position, bytesRead := 0, 1;
    while bytesRead > 0
      invariant position <= |file| && content == file[..position]
      invariant 0 <= bytesRead
      invariant bytesRead == 0 ==> position == |file|
      decreases |file| - position, bytesRead
    {
      bytesRead := if position < |file| then given(position) else 0;
      if bytesRead > 0 {
        content := content + file[position..position + bytesRead];
        position := position + bytesRead;
      }
    }
  }
}
