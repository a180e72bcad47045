/** The pipe of pipe.c. Each method is what a process does while it holds the pipe's
    lock, from taking it to releasing it or going to sleep, so any interleaving of
    readers and writers is a sequence of calls. */
module Pipe {
  import opened Blocks
  import opened Ring

  const PIPESIZE: nat := 512

  datatype WriteState = Written | WriteSleeps | WriteFails

  datatype ReadState = Read | ReadSleeps | ReadFails

  class Pipe {
    const data: array<Byte>
    var nread: nat
    var nwrite: nat
    var readopen: bool
    var writeopen: bool

    /** All bytes ever stored, and how many of them have been read. */
    ghost var stored: seq<Byte>
    ghost var taken: nat

    ghost predicate Valid()
      reads this, data
    {
      && data.Length == PIPESIZE && taken <= |stored| <= taken + PIPESIZE
      && nread == Wrap(taken) && nwrite == Wrap(|stored|) && InRing(data[..], stored, taken, PIPESIZE)
    }

    constructor ()
      ensures Valid() && fresh(data) && stored == [] && taken == 0 && readopen && writeopen
    {
      data := new Byte[PIPESIZE];
      nread, nwrite := 0, 0;
      readopen, writeopen := true, true;
      stored, taken := [], 0;
    }

    /** `pipewrite` from byte `from` of `addr` on, until done, asleep or refused. */
    method Write(addr: seq<Byte>, from: nat, killed: bool) returns (i: nat, r: WriteState)
      requires Valid() && from <= |addr|
      modifies this`nwrite, this`stored, data
      ensures Valid() && from <= i <= |addr| && stored == old(stored) + addr[from..i]
      ensures r == Written <==> i == |addr|
      ensures r != Written ==> |stored| == taken + PIPESIZE
      ensures r == WriteFails ==> !readopen || killed
      ensures r == WriteSleeps ==> readopen && !killed
    {
      hide Wrap, Minus, Slot, InRing;
      i := from;
      while i < |addr|
        invariant Valid() && from <= i <= |addr| && stored == old(stored) + addr[from..i]
      {
        Apart(taken, |stored|, PIPESIZE);
        if nwrite == Wrap(nread + PIPESIZE) {
          return i, if !readopen || killed then WriteFails else WriteSleeps;
        }
        Counts(|stored|, PIPESIZE);
        PutKeeps(data[..], stored, taken, PIPESIZE, addr[i]);
        data[Slot(nwrite, PIPESIZE)] := addr[i];
        nwrite := Wrap(nwrite + 1);
        stored := stored + [addr[i]];
        assert addr[from..i + 1] == addr[from..i] + [addr[i]];
        i := i + 1;
      }
      return i, Written;
    }

    /** `piperead` of at most `n` bytes. */
    method ReadBytes(n: nat, killed: bool) returns (bytes: seq<Byte>, r: ReadState)
      requires Valid()
      modifies this`nread, this`taken
      ensures Valid() && taken == old(taken) + |bytes| && bytes == stored[old(taken)..taken]
      ensures r == Read <==> old(taken) < |stored| || !writeopen
      ensures r != Read ==> bytes == [] && (r == ReadFails <==> killed)
      ensures r == Read ==> |bytes| == if n < |stored| - old(taken) then n else |stored| - old(taken)
    {
      hide Wrap, Minus, Slot, InRing;
      bytes := [];
      Apart(taken, |stored|, PIPESIZE);
      if nread == nwrite && writeopen {
        return [], if killed then ReadFails else ReadSleeps;
      }
      var i := 0;
      while i < n && nread != nwrite
        invariant Valid() && i == |bytes| <= n && taken == old(taken) + i && bytes == stored[old(taken)..taken]
      {
        Apart(taken, |stored|, PIPESIZE);
        Counts(taken, PIPESIZE);
        TakeKeeps(data[..], stored, taken, PIPESIZE);
        bytes := bytes + [data[Slot(nread, PIPESIZE)]];
        nread := Wrap(nread + 1);
        taken := taken + 1;
        assert stored[old(taken)..taken] == stored[old(taken)..taken - 1] + [stored[taken - 1]];
        i := i + 1;
      }
      Apart(taken, |stored|, PIPESIZE);
      return bytes, Read;
    }

    /** `pipeclose`; `freed` says whether the pipe's page goes back to the allocator. */
    method Close(writable: bool) returns (freed: bool)
      requires Valid()
      modifies this`readopen, this`writeopen
      ensures freed <==> if writable then !old(readopen) else !old(writeopen)
      ensures Valid() && readopen == (old(readopen) && writable) && writeopen == (old(writeopen) && !writable)
    {
      if writable {
        writeopen := false;
      } else {
        readopen := false;
      }
      return !readopen && !writeopen;
    }
  }
}
