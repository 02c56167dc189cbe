/** The pipe object and the code that works on it under its lock. */
module PipeCode {
  import opened Blocks
  import opened Pipes

  class Pipe {
    var data: array<Byte>
    var nread: nat
    var nwrite: nat
    var readopen: bool
    var writeopen: bool

    ghost predicate Valid()
      reads this, data
    {
      data.Length == PIPESIZE && nread < WRAP && nwrite < WRAP
    }

    ghost function Now(): Ring
      reads this, data
    {
      Ring(data[..], nread, nwrite, readopen, writeopen)
    }

    constructor ()
      ensures Valid() && fresh(data) && Empty(Now()) && readopen && writeopen && Holds(Now(), [], 0)
    {
      data := new Byte[PIPESIZE](_ => 0);
      nread, nwrite, readopen, writeopen := 0, 0, true, true;
    }

    /** The loop of `pipewrite`, from byte `from` on, up to its return or its `sleep`. */
    method Write(src: seq<Byte>, from: nat, killAt: nat, badAt: nat) returns (i: nat, end: End)
      requires Valid()
      modifies this`nwrite, data
      ensures Valid() && data == old(data)
      ensures Wrote(Now(), i, end) == WriteRun(old(Now()), src, from, killAt, badAt)
    {
      i := from;
      while i < |src|
        invariant Valid() && data == old(data)
        invariant WriteRun(Now(), src, i, killAt, badAt) == WriteRun(old(Now()), src, from, killAt, badAt)
        decreases |src| - i
      {
        if !readopen || i >= killAt {
          return i, Failed;
        }
        if nwrite == (nread + PIPESIZE) % WRAP {
          return i, Slept;
        }
        if i >= badAt {
          break;
        }
        ghost var was := Now();
        data[nwrite % PIPESIZE] := src[i];
        nwrite := (nwrite + 1) % WRAP;
        assert Now() == Store(was, src[i]);
        i := i + 1;
      }
      end := Returned;
    }

    /** `piperead` up to its return or its `sleep`; `got` is what it took out of the ring. */
    method Read(n: nat, killed: bool, badAt: nat) returns (got: seq<Byte>, i: nat, end: End)
      requires Valid()
      modifies this`nread
      ensures Valid()
      ensures ReadBack(Now(), got, i, end) == ReadRun(old(Now()), n, killed, badAt)
    {
      got, i := [], 0;
      if nread == nwrite && writeopen {
        return got, i, if killed then Failed else Slept;
      }
      ghost var all := CopyRun(Now(), n, 0, badAt);
      assert Prefixed(got, all) == all;
      while i < n
        invariant Valid() && i <= n
        invariant Prefixed(got, CopyRun(Now(), n, i, badAt)) == all
      {
        if nread == nwrite {
          break;
        }
        ghost var was := Now();
        CopyNext(was, n, i, badAt, got);
        var b := data[nread % PIPESIZE];
        nread := (nread + 1) % WRAP;
        assert Now() == Drop(was);
        got := got + [b];
        if i >= badAt {
          return got, i, Returned;
        }
        i := i + 1;
      }
      CopyEnds(Now(), n, i, badAt, got);
      end := Returned;
    }

    /** `pipeclose`: `dead` says that both ends are now closed, so that the pipe is to be freed. */
    method Close(writable: bool) returns (dead: bool)
      requires Valid()
      modifies this`readopen, this`writeopen
      ensures Valid()
      ensures Now() == if writable then old(Now()).(writeopen := false) else old(Now()).(readopen := false)
      ensures dead <==> !readopen && !writeopen
    {
      if writable {
        writeopen := false;
      } else {
        readopen := false;
      }
      dead := !readopen && !writeopen;
    }
  }
}
