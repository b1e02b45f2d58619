/**
 * `common.kt`: the screen-information record shared by the services and
 * `AudioReader`, the fixed pool of audio buffers read round-robin.
 */
module Common {
  import opened Wrappers

  /** `Info`: a mutable record of the captured screen's geometry. */
  class Info {
    var width: int
    var height: int
    var scale: int
    var dpi: int

    constructor (width: int, height: int, scale: int, dpi: int)
      ensures this.width == width && this.height == height && this.scale == scale && this.dpi == dpi
    {
      this.width, this.height, this.scale, this.dpi := width, height, scale, dpi;
    }
  }

  /** `SCREEN_INFO` as created at start-up: nothing captured yet, scale 1, 200 dpi. */
  method NewScreenInfo() returns (info: Info)
    ensures fresh(info)
    ensures info.width == 0 && info.height == 0 && info.scale == 1 && info.dpi == 200
  {
    info := new Info(0, 0, 1, 200);
  }

  const MAX_FRAMES: int := 32

  datatype Result<T> = Ok(value: T) | Err(message: string)

  /** The exception the `AudioReader` constructor throws, checked in the order the source checks. */
  function ConstructorError(bufSize: int, maxFrames: int): (r: Option<string>)
    ensures r.None? <==> 0 <= maxFrames <= MAX_FRAMES && bufSize > 0
    ensures (maxFrames < 0 || maxFrames > MAX_FRAMES) ==> r == Some("Out of bounds")
    ensures 0 <= maxFrames <= MAX_FRAMES && bufSize <= 0 ==> r == Some("Wrong bufSize")
  {
    if maxFrames < 0 || maxFrames > MAX_FRAMES then Some("Out of bounds")
    else if bufSize <= 0 then Some("Wrong bufSize")
    else None
  }

  /** The position after `next()`: one step on, back to 0 at the end of the pool. */
  function NextPos(pos: int, maxFrames: int): int
  {
    if pos + 1 >= maxFrames then 0 else pos + 1
  }

  /** The position after `k` successful reads. */
  function Advance(pos: int, maxFrames: int, k: nat): int
  {
    if k == 0 then pos else NextPos(Advance(pos, maxFrames, k - 1), maxFrames)
  }

  /** Before the end of the pool is reached, `k` reads move the position `k` places on. */
  lemma {:induction false} AdvanceBeforeWrap(pos: int, maxFrames: int, k: nat)
    requires 0 <= pos && pos + k < maxFrames
    ensures Advance(pos, maxFrames, k) == pos + k
  {
    if k > 0 {
      AdvanceBeforeWrap(pos, maxFrames, k - 1);
    }
  }

  /** Once the end is passed, the position has wrapped round once. */
  lemma {:induction false} AdvanceAfterWrap(pos: int, maxFrames: int, k: nat)
    requires 0 <= pos < maxFrames && maxFrames <= pos + k < 2 * maxFrames
    ensures Advance(pos, maxFrames, k) == pos + k - maxFrames
  {
    if pos + k == maxFrames {
      AdvanceBeforeWrap(pos, maxFrames, k - 1);
    } else {
      AdvanceAfterWrap(pos, maxFrames, k - 1);
    }
  }

  /** The position never leaves the pool. */
  lemma {:induction false} AdvanceInPool(pos: int, maxFrames: int, k: nat)
    requires 0 <= pos < maxFrames
    ensures 0 <= Advance(pos, maxFrames, k) < maxFrames
  {
    if k > 0 {
      AdvanceInPool(pos, maxFrames, k - 1);
    }
  }

  /**
   * Round-robin reuse: a full round of `maxFrames` successful reads brings
   * the position back to its start, and no shorter round does.
   */
  lemma RoundRobin(pos: int, maxFrames: int)
    requires 0 <= pos < maxFrames
    ensures Advance(pos, maxFrames, maxFrames) == pos
    ensures forall k: nat :: 0 < k < maxFrames ==> Advance(pos, maxFrames, k) != pos
  {
    AdvanceAfterWrap(pos, maxFrames, maxFrames);
    forall k: nat | 0 < k < maxFrames ensures Advance(pos, maxFrames, k) != pos {
      if pos + k < maxFrames {
        AdvanceBeforeWrap(pos, maxFrames, k);
      } else {
        AdvanceAfterWrap(pos, maxFrames, k);
      }
    }
  }

  /** After each full round the same buffers come round again in the same order. */
  lemma {:induction false} AdvancePeriodic(pos: int, maxFrames: int, k: nat)
    requires 0 <= pos < maxFrames
    ensures Advance(pos, maxFrames, k + maxFrames) == Advance(pos, maxFrames, k)
  {
    if k == 0 {
      RoundRobin(pos, maxFrames);
    } else {
      AdvancePeriodic(pos, maxFrames, k - 1);
    }
  }

  /** What `readSync` gives back: the filled buffer, null, or the exception of an empty pool. */
  datatype ReadOutcome = Filled(buffer: array<bv8>) | NoData | IndexOutOfBounds

  class AudioReader {
    const bufSize: int
    const maxFrames: int
    var currentPos: int
    const bufferPool: array<array<bv8>>

    /** The pool has `maxFrames` distinct buffers of `bufSize` bytes; the position lies in it. */
    ghost predicate Valid()
      reads this, bufferPool
    {
      ConstructorError(bufSize, maxFrames).None? &&
      bufferPool.Length == maxFrames &&
      (if maxFrames == 0 then currentPos == 0 else 0 <= currentPos < maxFrames) &&
      (forall i :: 0 <= i < maxFrames ==> bufferPool[i].Length == bufSize) &&
      (forall i, j :: 0 <= i < j < maxFrames ==> bufferPool[i] != bufferPool[j])
    }

    /** The constructor after its checks have passed; `Create` is the checked entry. */
    constructor (bufSize: int, maxFrames: int)
      requires ConstructorError(bufSize, maxFrames).None?
      ensures Valid() && fresh(bufferPool) && bufferPool.Length == maxFrames
      ensures forall i :: 0 <= i < maxFrames ==> fresh(bufferPool[i])
      ensures this.bufSize == bufSize && this.maxFrames == maxFrames && currentPos == 0
    {
      this.bufSize := bufSize;
      this.maxFrames := maxFrames;
      currentPos := 0;
      var pool := new array<bv8>[maxFrames];
      var k := 0;
      while k < maxFrames
        invariant 0 <= k <= maxFrames
        invariant forall i :: 0 <= i < k ==> fresh(pool[i]) && pool[i].Length == bufSize
        invariant forall i, j :: 0 <= i < j < k ==> pool[i] != pool[j]
      {
        pool[k] := new bv8[bufSize];
        k := k + 1;
      }
      bufferPool := pool;
    }

    /** `AudioReader(bufSize, maxFrames)`: the exception for bad arguments, else a fresh reader at position 0. */
    static method Create(bufSize: int, maxFrames: int) returns (r: Result<AudioReader>)
      ensures ConstructorError(bufSize, maxFrames).Some? ==> r == Err(ConstructorError(bufSize, maxFrames).value)
      ensures ConstructorError(bufSize, maxFrames).None? ==>
        r.Ok? && fresh(r.value) && fresh(r.value.bufferPool) && r.value.Valid() &&
        r.value.bufSize == bufSize && r.value.maxFrames == maxFrames && r.value.currentPos == 0
    {
      var err := ConstructorError(bufSize, maxFrames);
      if err.Some? {
        return Err(err.value);
      }
      var reader := new AudioReader(bufSize, maxFrames);
      return Ok(reader);
    }

    /** `next()`: one step round the pool. */
    method Next()
      requires Valid() && maxFrames > 0
      modifies this
      ensures Valid()
      ensures currentPos == NextPos(old(currentPos), maxFrames)
    {
      currentPos := currentPos + 1;
      if currentPos >= maxFrames {
        currentPos := 0;
      }
    }

    /**
     * `readSync`, given what `AudioRecord.read` answered for the buffer at
     * the current position: a positive count hands that buffer out and
     * advances, anything else gives null and stays. An empty pool has no
     * buffer at position 0 and the array access throws. The samples that
     * `AudioRecord.read` writes into the handed-out buffer are not
     * modelled, so the frame leaves the buffers' bytes out.
     */
    method ReadSync(res: int) returns (r: ReadOutcome)
      requires Valid()
      modifies this
      ensures Valid()
      ensures maxFrames == 0 ==> r == IndexOutOfBounds && currentPos == old(currentPos)
      ensures maxFrames > 0 && res > 0 ==>
        r == Filled(bufferPool[old(currentPos)]) && currentPos == NextPos(old(currentPos), maxFrames)
      ensures maxFrames > 0 && res <= 0 ==> r == NoData && currentPos == old(currentPos)
    {
      if currentPos >= bufferPool.Length {
        return IndexOutOfBounds;
      }
      var buffer := bufferPool[currentPos];
      if res > 0 {
        Next();
        return Filled(buffer);
      }
      return NoData;
    }
  }
}
