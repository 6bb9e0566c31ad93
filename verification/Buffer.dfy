/** The connection's byte buffer: one growable array, eight bytes kept free in front, two indices.
    Its readable bytes behave as a queue of bytes. */
module BufferModule {
  import opened Text

  const CHEAP_PREPEND: nat := 8
  const INITIAL_SIZE: nat := 1024
  const EXTRA_SIZE: nat := 32 * 1024

  function Max(a: nat, b: nat): nat { if a < b then b else a }

  // What readv() answered: the bytes it delivered, or an errno that is EAGAIN or not.
  datatype ReadResult = Bytes(data: string) | ReadFailed(again: bool)

  // What write() answered.
  datatype WriteResult = Wrote(count: nat) | WriteFailed(again: bool)

  class Buffer {
    var buffer: array<char>
    var readIndex: nat
    var writeIndex: nat
    ghost var Contents: string  // the readable bytes, as a queue
    ghost var peak: nat         // the most bytes ever readable at once

    ghost predicate Valid()
      reads this, buffer
    {
      && CHEAP_PREPEND <= readIndex <= writeIndex <= buffer.Length
      && Contents == buffer[readIndex..writeIndex]
      && |Contents| <= peak
      && buffer.Length <= Max(CHEAP_PREPEND + INITIAL_SIZE, 2 * peak + 7)
    }

    constructor ()
      ensures Valid() && Contents == "" && fresh(buffer) && peak == 0
    {
      buffer := new char[CHEAP_PREPEND + INITIAL_SIZE](_ => '\0');
      readIndex, writeIndex := CHEAP_PREPEND, CHEAP_PREPEND;
      Contents, peak := "", 0;
    }

    function ReadableBytes(): nat
      reads this, buffer
      requires Valid()
    {
      writeIndex - readIndex
    }

    function WriteableBytes(): nat
      reads this, buffer
      requires Valid()
    {
      buffer.Length - writeIndex
    }

    method FindIn(pat: string) returns (r: Option<nat>)
      requires Valid()
      ensures r == Find(Contents, pat)
    {
      var view := GetStringView(ReadableBytes());
      assert view == Contents;
      r := Find(view, pat);
    }

    method GetStringView(len: nat) returns (view: string)
      requires Valid()
      ensures view == if len <= |Contents| then Contents[..len] else ""
    {
      if len > ReadableBytes() {
        return "";
      }
      view := buffer[readIndex..readIndex + len];
    }

    method Append(data: string)
      requires Valid()
      modifies this, buffer
      ensures Valid() && Contents == old(Contents) + data
      ensures peak == Max(old(peak), |Contents|)
      ensures buffer.Length <= 1032 || buffer.Length <= 2 * peak + 7
      ensures buffer == old(buffer) || fresh(buffer)
    {
      EnsureWriteableBytes(|data|);
      Fill(data);
    }

    // What Fill needs: room for more bytes, in an array no longer than they will justify.
    ghost predicate Roomy(len: nat)
      reads this, buffer
    {
      && CHEAP_PREPEND <= readIndex <= writeIndex && writeIndex + len <= buffer.Length
      && Contents == buffer[readIndex..writeIndex] && |Contents| <= peak
      && buffer.Length <= Max(CHEAP_PREPEND + INITIAL_SIZE, 2 * Max(peak, |Contents| + len) + 7)
    }

    // Writes into the free tail; the bytes become readable when writeIndex moves past them.
    method Fill(data: string)
      requires Roomy(|data|)
      modifies this`writeIndex, this`Contents, this`peak, buffer
      ensures Valid() && Contents == old(Contents) + data && writeIndex == old(writeIndex) + |data|
      ensures peak == Max(old(peak), |Contents|)
    {
      CopyToTail(data);
      assert buffer[readIndex..writeIndex + |data|] == Contents + data;
      writeIndex := writeIndex + |data|;
      Contents := Contents + data;
      peak := Max(peak, |Contents|);
    }

    method CopyToTail(data: string)
      requires CHEAP_PREPEND <= readIndex <= writeIndex && writeIndex + |data| <= buffer.Length
      modifies buffer
      ensures buffer[readIndex..writeIndex] == old(buffer[readIndex..writeIndex])
      ensures buffer[writeIndex..writeIndex + |data|] == data
    {
      ghost var before := buffer[readIndex..writeIndex];
      var i := 0;
      while i < |data|
        invariant 0 <= i <= |data|
        invariant buffer[readIndex..writeIndex] == before
        invariant buffer[writeIndex..writeIndex + i] == data[..i]
      {
        buffer[writeIndex + i] := data[i];
        i := i + 1;
      }
      assert data[..i] == data;
    }

    method Retrieve(len: nat)
      requires Valid()
      modifies this`readIndex, this`writeIndex, this`Contents
      ensures Valid()
      ensures Contents == if len < |old(Contents)| then old(Contents)[len..] else ""
    {
      if len < ReadableBytes() {
        readIndex := readIndex + len;
        Contents := Contents[len..];
      } else {
        RetrieveAll();
      }
    }

    method RetrieveAll()
      requires Valid()
      modifies this`readIndex, this`writeIndex, this`Contents
      ensures Valid() && Contents == ""
      ensures readIndex == writeIndex == CHEAP_PREPEND
    {
      readIndex, writeIndex := CHEAP_PREPEND, CHEAP_PREPEND;
      Contents := "";
    }

    method RetrieveAsString(len: nat) returns (result: string)
      requires Valid()
      modifies this`readIndex, this`writeIndex, this`Contents
      ensures Valid() && result + Contents == old(Contents)
      ensures |result| == if len > |old(Contents)| then |old(Contents)| else len
    {
      var n := if len > ReadableBytes() then ReadableBytes() else len;
      result := buffer[readIndex..readIndex + n];
      Retrieve(n);
    }

    // How many bytes the readv() of ReadFd can take: the free tail, and the 32 KB side buffer
    // when the tail is shorter than that.
    function ReadvCapacity(): nat
      reads this, buffer
      requires Valid()
    {
      if WriteableBytes() < EXTRA_SIZE then WriteableBytes() + EXTRA_SIZE else WriteableBytes()
    }

    method ReadFd(answer: ReadResult) returns (n: int)
      requires Valid()
      requires answer.Bytes? ==> |answer.data| <= ReadvCapacity()
      modifies this, buffer
      ensures Valid() && (buffer == old(buffer) || fresh(buffer))
      ensures buffer.Length <= 1032 || buffer.Length <= 2 * peak + 7
      ensures match answer
              case Bytes(data) =>
                n == |data| && Contents == old(Contents) + data && peak == Max(old(peak), |Contents|)
              case ReadFailed(_) => n == -1 && Contents == old(Contents) && peak == old(peak)
    {
      if answer.ReadFailed? {
        return -1;
      }
      var data := answer.data;
      var writeable := WriteableBytes();
      n := |data|;
      if n <= writeable {
        Fill(data);
      } else {
        // readv fills the free tail first; the rest landed in the side buffer.
        var extra := data[writeable..];
        assert old(Contents) + data[..writeable] + extra == old(Contents) + data;
        Fill(data[..writeable]);
        assert writeIndex == buffer.Length;
        Append(extra);
      }
    }

    method WriteFd(answer: WriteResult) returns (n: int)
      requires Valid()
      requires answer.Wrote? ==> answer.count <= ReadableBytes()
      modifies this`readIndex, this`writeIndex, this`Contents
      ensures Valid()
      ensures match answer
              case Wrote(count) => n == count && Contents == old(Contents)[count..]
              case WriteFailed(_) => n == -1 && Contents == old(Contents)
    {
      match answer
      case Wrote(count) =>
        n := count;
        if n > 0 {
          Retrieve(n);
        }
      case WriteFailed(_) =>
        n := -1;
    }

    method EnsureWriteableBytes(len: nat)
      requires Valid()
      modifies this`buffer, this`readIndex, this`writeIndex, buffer
      ensures Roomy(len)
      ensures buffer == old(buffer) || fresh(buffer)
    {
      if WriteableBytes() < len {
        MakeSpace(len);
      }
    }

    // Compact when the free bytes on both sides suffice, grow otherwise.
    method MakeSpace(len: nat)
      requires Valid() && WriteableBytes() < len
      modifies this`buffer, this`readIndex, this`writeIndex, buffer
      ensures CHEAP_PREPEND <= readIndex <= writeIndex && writeIndex + len <= buffer.Length
      ensures buffer[readIndex..writeIndex] == Contents
      ensures buffer.Length <= Max(CHEAP_PREPEND + INITIAL_SIZE, 2 * Max(peak, |Contents| + len) + 7)
      ensures buffer == old(buffer) || fresh(buffer)
      ensures buffer == old(buffer) <==> old(readIndex + WriteableBytes() >= len + CHEAP_PREPEND)
    {
      if readIndex + WriteableBytes() < len + CHEAP_PREPEND {
        Resize(writeIndex + len);
      } else {
        Compact();
      }
    }

    // std::vector::resize to a larger size.
    method Resize(size: nat)
      requires Valid() && size > buffer.Length
      modifies this`buffer
      ensures fresh(buffer) && buffer.Length == size && buffer[readIndex..writeIndex] == Contents
    {
      var bigger := new char[size](_ => '\0');
      var i := 0;
      while i < buffer.Length
        invariant 0 <= i <= buffer.Length
        invariant bigger[..i] == buffer[..i]
        modifies bigger
      {
        bigger[i] := buffer[i];
        i := i + 1;
      }
      assert bigger[readIndex..writeIndex] == bigger[..i][readIndex..writeIndex] == Contents;
      buffer := bigger;
    }

    // The overlapping forward copy: it runs only with bytes to reclaim, so every byte moves
    // strictly left and none is overwritten before it is read.
    method Compact()
      requires Valid() && readIndex > CHEAP_PREPEND
      modifies this`readIndex, this`writeIndex, buffer
      ensures readIndex == CHEAP_PREPEND && writeIndex == CHEAP_PREPEND + |Contents| <= buffer.Length
      ensures buffer[readIndex..writeIndex] == Contents
    {
      var readable := ReadableBytes();
      var i := 0;
      while i < readable
        invariant 0 <= i <= readable
        invariant buffer[CHEAP_PREPEND..CHEAP_PREPEND + i] == Contents[..i]
        invariant buffer[readIndex + i..writeIndex] == Contents[i..]
        modifies buffer
      {
        assert buffer[readIndex + i] == buffer[readIndex + i..writeIndex][0] == Contents[i];
        assert Contents[i + 1..] == Contents[i..][1..];
        buffer[CHEAP_PREPEND + i] := buffer[readIndex + i];
        i := i + 1;
      }
      readIndex := CHEAP_PREPEND;
      writeIndex := readIndex + readable;
    }
  }
}
