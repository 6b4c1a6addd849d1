/** The windowed reader under the frame inspector: one buffer that holds the last block read. */
module FrameReading {
  import opened Basics
  import opened ByteFields
  import opened Lines

  /** `frameReader`. The file may have become shorter than `size`. */
  class FrameReader {
    const file: seq<Byte>
    const size: nat
    const buffer: array<Byte>
    var start: int
    var bytes: nat

    ghost predicate Valid()
      reads this, buffer
    {
      && bytes <= buffer.Length
      && (start < 0 ==> start == -1 && bytes == 0)
      && (start >= 0 ==> bytes > 0 ==> start + bytes <= |file| && buffer[..bytes] == file[start..start + bytes])
    }

    constructor (file: seq<Byte>, size: nat, chunkBytes: nat)
      ensures Valid() && this.file == file && this.size == size && buffer.Length == chunkBytes && fresh(buffer)
    {
      this.file, this.size := file, size;
      buffer := new Byte[chunkBytes](_ => 0);
      start, bytes := -1, 0;
    }

    /** Fills the buffer from `position`, as far as the buffer, the size and the file reach. */
    method Fill(position: nat)
      requires Valid() && position <= size
      modifies this`start, this`bytes, buffer
      ensures Valid() && start == position
      ensures bytes == Min(Min(buffer.Length, size - position), if position <= |file| then |file| - position else 0)
    {
      start := position;
      bytes := Min(Min(buffer.Length, size - position), if position <= |file| then |file| - position else 0);
      var i := 0;
      while i < bytes
        invariant 0 <= i <= bytes && bytes <= buffer.Length && start == position
        invariant (bytes > 0 ==> start + bytes <= |file|)
        invariant bytes == Min(Min(buffer.Length, size - position), if position <= |file| then |file| - position else 0)
        invariant bytes > 0 ==> buffer[..i] == file[position..position + i]
        modifies buffer
      {
        buffer[i] := file[position + i];
        i := i + 1;
      }
    }

    /** The bytes at a position: always the file's own, and missing exactly when they lie beyond the size, beyond the end of
        a shortened file, or do not fit the buffer at all. */
    method Read(position: nat, count: nat) returns (value: Option<seq<Byte>>)
      requires Valid() && count > 0
      modifies this`start, this`bytes, buffer
      ensures Valid()
      ensures value.Some? <==> position + count <= size && position + count <= |file| && count <= buffer.Length
      ensures value.Some? ==> value.value == file[position..position + count]
    {
      if position + count > size { return None; }
      if position < start || position + count > start + bytes {
        Fill(position);
        if bytes < count { return None; }
      }
      var offset := position - start;
      value := Some(buffer[..bytes][offset..offset + count]);
      SliceOfSlice(file, start, start + bytes, offset, offset + count);
    }

    /** The little-endian number at a position. */
    method ReadNumber(position: nat, count: nat) returns (value: Option<nat>)
      requires Valid() && 0 < count <= buffer.Length
      modifies this`start, this`bytes, buffer
      ensures Valid()
      ensures value == if position + count <= size && position + count <= |file| then Some(Num(file, position, count)) else None
    {
      var raw := Read(position, count);
      if raw.None? { return None; }
      NumOfSlice(file, position, count);
      value := Some(Num(raw.value, 0, count));
    }
  }

  lemma {:induction false} NumShift(b: seq<Byte>, s: seq<Byte>, pos: nat, at: nat, n: nat)
    requires at + n <= |s| && pos + |s| <= |b| && s == b[pos..pos + |s|]
    ensures Num(s, at, n) == Num(b, pos + at, n)
    decreases n
  {
    if n > 0 {
      NumShift(b, s, pos, at + 1, n - 1);
    }
  }

  lemma NumOfSlice(b: seq<Byte>, pos: nat, n: nat)
    requires pos + n <= |b|
    ensures Num(b[pos..pos + n], 0, n) == Num(b, pos, n)
  {
    NumShift(b, b[pos..pos + n], pos, 0, n);
  }

  /** A field is zero when all its bytes are. */
  lemma {:induction false} ZeroField(b: seq<Byte>, pos: nat, n: nat)
    requires pos + n <= |b|
    ensures Num(b, pos, n) == 0 <==> forall i | pos <= i < pos + n :: b[i] == 0
    decreases n
  {
    if n > 0 {
      ZeroField(b, pos + 1, n - 1);
    }
  }
}
