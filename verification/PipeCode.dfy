/** pipe.c.  Each method is what one process does between two points where it holds no pipe
    lock: from entry or a wake-up to the next sleep or return. */
module PipeCode {
  import opened Common

  const PIPESIZE := 512

  datatype WriteResult = Wrote | WriteSlept | WriteFailed
  datatype ReadResult = Got(bytes: seq<char>) | ReadSlept | ReadFailed

  class Pipe {
    const data: array<char>
    var nread: nat            // counters wrap at 2^32
    var nwrite: nat
    var readopen: bool
    var writeopen: bool
    ghost var sent: seq<char> // every byte ever appended
    ghost var got: seq<char>  // every byte ever read
    ghost var readers: set<nat> // processes asleep on nread
    ghost var writers: set<nat> // processes asleep on nwrite

    /** The bytes read are a prefix of those appended, and the ring holds the difference. */
    ghost predicate Fifo()
      reads this, data
    {
      && data.Length == PIPESIZE && got <= sent && |sent| - |got| <= PIPESIZE
      && nread == |got| % WORD && nwrite == |sent| % WORD
      && forall j | |got| <= j < |sent| :: data[j % PIPESIZE] == sent[j]
    }

    ghost function Waiting(): nat
      reads this, data
      requires Fifo()
    {
      |sent| - |got|
    }

    /** Nobody sleeps who could run. */
    ghost predicate Woken()
      reads this, data
      requires Fifo()
    {
      && (readers != {} ==> Waiting() == 0 && writeopen && readopen)
      && (writers != {} ==> Waiting() == PIPESIZE && readopen)
    }

    constructor ()
      ensures Fifo() && Woken() && fresh(data) && sent == [] && got == [] && readopen && writeopen
      ensures readers == {} && writers == {}
    {
      data := new char[PIPESIZE](_ => ' ');
      nread := 0;
      nwrite := 0;
      readopen := true;
      writeopen := true;
      sent := [];
      got := [];
      readers := {};
      writers := {};
    }

    /** One byte of pipewrite's loop. */
    method Put(c: char)
      requires Fifo() && Waiting() < PIPESIZE
      modifies this`nwrite, this`sent, data
      ensures Fifo() && sent == old(sent) + [c]
    {
      WrapIndex(|sent|);
      data[nwrite % PIPESIZE] := c;
      nwrite := (nwrite + 1) % WORD;
      ghost var was := sent;
      sent := sent + [c];
      WrapNext(|was|);
      forall j | |got| <= j < |sent| ensures data[j % PIPESIZE] == sent[j] {
        if j < |was| { SlotsApart(j, |was|); }
      }
    }

    /** One byte of piperead's loop. */
    method Take() returns (c: char)
      requires Fifo() && Waiting() > 0
      modifies this`nread, this`got
      ensures Fifo() && got == old(got) + [c] && c == sent[|old(got)|]
    {
      WrapIndex(|got|);
      c := data[nread % PIPESIZE];
      nread := (nread + 1) % WORD;
      WrapNext(|got|);
      got := got + [c];
    }

    /** kill() of process p: if it sleeps here it will run again. */
    method Kill(p: nat)
      requires Fifo()
      modifies this`readers, this`writers
      ensures readers == old(readers) - {p} && writers == old(writers) - {p}
      ensures Fifo() && (old(Woken()) ==> Woken())
    {
      readers, writers := readers - {p}, writers - {p};
    }

    /** pipewrite() by process p, with these bytes still to write: the first k are appended
        in order.  If nobody slept who could run, then that is so afterwards unless a killed
        writer filled the pipe past another process that sleeps as a reader. */
    method Write(p: nat, bytes: seq<char>, killed: bool) returns (r: WriteResult, k: nat)
      requires Fifo()
      modifies this, data
      ensures k == Min(|bytes|, PIPESIZE - old(Waiting()))
      ensures Fifo() && got == old(got) && sent == old(sent) + bytes[..k] && readopen == old(readopen)
              && writeopen == old(writeopen)
      ensures r == if k == |bytes| then Wrote else if !readopen || killed then WriteFailed else WriteSlept
      ensures writers == if r.WriteSlept? then old(writers) + {p} else old(writers) - {p}
      ensures readers == if r.WriteFailed? then old(readers) - {p} else {}
      ensures old(Woken()) ==>
                (Woken() <==> !(killed && |bytes| > PIPESIZE - old(Waiting()) && old(readers) - {p} != {}))
    {
      readers, writers := readers - {p}, writers - {p};
      k := 0;
      while k < |bytes|
        invariant 0 <= k <= |bytes| && Fifo() && got == old(got) && sent == old(sent) + bytes[..k]
        invariant readers == old(readers) - {p} && writers == old(writers) - {p} && readopen == old(readopen)
                  && writeopen == old(writeopen)
      {
        FullIs(|got|, |sent|);
        if nwrite == (nread + PIPESIZE) % WORD {
          if !readopen || killed {
            return WriteFailed, k;
          }
          readers := {};
          writers := writers + {p};
          return WriteSlept, k;
        }
        Put(bytes[k]);
        k := k + 1;
      }
      readers := {};
      r := Wrote;
    }

    /** piperead() by process p: the oldest bytes, as many as asked for and present. */
    method Read(p: nat, n: nat, killed: bool) returns (r: ReadResult)
      requires Fifo() && readopen
      modifies this
      ensures Fifo() && sent == old(sent) && data[..] == old(data[..]) && readopen == old(readopen)
              && writeopen == old(writeopen)
      ensures old(Woken()) ==> Woken()
      ensures r.Got? ==> got == old(got) + r.bytes && r.bytes == sent[|old(got)|..|old(got)| + Min(n, old(Waiting()))]
                         && writers == {}
      ensures !r.Got? ==> got == old(got) && old(Waiting()) == 0 && writeopen
      ensures r.ReadFailed? ==> killed
      ensures old(Waiting()) == 0 && writeopen ==> r == if killed then ReadFailed else ReadSlept
      ensures readers == if r.ReadSlept? then old(readers) + {p} else old(readers) - {p}
      ensures !r.Got? ==> writers == old(writers) - {p}
    {
      readers, writers := readers - {p}, writers - {p};
      EmptyIs(|got|, |sent|);
      if nread == nwrite && writeopen {
        if killed {
          return ReadFailed;
        }
        readers := readers + {p};
        return ReadSlept;
      }
      var out: seq<char> := [];
      while |out| < n
        invariant |out| <= n && Fifo() && sent == old(sent) && got == old(got) + out
        invariant readers == old(readers) - {p} && writers == old(writers) - {p} && readopen == old(readopen)
                  && writeopen == old(writeopen)
        invariant old(Waiting()) == 0 ==> out == []
        decreases n - |out|
      {
        EmptyIs(|got|, |sent|);
        if nread == nwrite {
          break;
        }
        var c := Take();
        out := out + [c];
      }
      writers := {};
      r := Got(out);
    }

    /** pipeclose(), when the last reference to that end goes: nobody is inside a call on it.
        The pipe is freed with its second end, and then nobody sleeps on it. */
    method Close(writable: bool) returns (freed: bool)
      requires Fifo() && (if writable then writers == {} else readers == {})
      modifies this
      ensures Fifo() && sent == old(sent) && got == old(got)
      ensures old(Woken()) ==> Woken()
      ensures writeopen == (old(writeopen) && !writable) && readopen == (old(readopen) && writable)
      ensures freed <==> !readopen && !writeopen
      ensures freed ==> readers == {} && writers == {}
    {
      if writable {
        writeopen := false;
        readers := {};
      } else {
        readopen := false;
        writers := {};
      }
      freed := !readopen && !writeopen;
    }
  }

  /** A reader waits on an empty pipe; a killed process then writes more than fits.  The pipe
      ends up full and the reader still asleep. */
  method StrandedReader() returns (p: Pipe)
    ensures fresh(p) && p.Fifo() && p.Waiting() == PIPESIZE && p.readers == {1} && !p.Woken()
    ensures p.readopen && p.writeopen && p.writers == {} && p.got == [] && p.sent == seq(PIPESIZE, _ => 'x')
  {
    p := new Pipe();
    var r := p.Read(1, 1, false);
    var w, k := p.Write(2, seq(PIPESIZE + 1, _ => 'x'), true);
  }

  /** The pipe goes on after that: another process reads the first byte, the stranded reader
      is killed and returns, and its end can be closed. */
  method StrandedGoesOn() returns (p: Pipe, c: char)
    ensures fresh(p) && p.Fifo() && p.Woken() && c == 'x' && p.Waiting() == PIPESIZE - 1 && !p.readopen
  {
    p := StrandedReader();
    var r := p.Read(3, 1, false);
    c := r.bytes[0];
    p.Kill(1);
    var freed := p.Close(false);
  }

  lemma WrapIndex(n: nat)
    ensures n % WORD % PIPESIZE == n % PIPESIZE
  {
  }

  lemma WrapNext(n: nat)
    ensures (n % WORD + 1) % WORD == (n + 1) % WORD
  {
  }

  lemma SlotsApart(i: nat, j: nat)
    requires i < j < i + PIPESIZE
    ensures i % PIPESIZE != j % PIPESIZE
  {
  }

  /** The test for a full pipe is exact although the counters wrap. */
  lemma FullIs(g: nat, s: nat)
    requires g <= s <= g + PIPESIZE
    ensures s % WORD == (g % WORD + PIPESIZE) % WORD <==> s == g + PIPESIZE
  {
  }

  lemma EmptyIs(g: nat, s: nat)
    requires g <= s <= g + PIPESIZE
    ensures s % WORD == g % WORD <==> s == g
  {
  }
}
