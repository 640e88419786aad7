/**
  The compacting, growing stream buffer with a size cap. Its get and put pointers are
  offsets into the character vector; `eback` is always the beginning of the vector.

  The log `put` is everything ever made readable and `taken` is how much of it has been
  consumed, so the object is a bounded queue of bytes seen through its pointers.
 */
module StreamBuf {
  import opened Sequences

  const BUFFER_DELTA: nat := 128

  datatype IntType<+T> = Eof | Character(c: T)

  lemma {:induction false} AppendToRest<T>(log: seq<T>, from: nat, more: seq<T>)
    requires from <= |log|
    ensures (log + more)[from..] == log[from..] + more
  {
  }

  lemma {:induction false} PrefixOfPrefix<T>(long: seq<T>, short: seq<T>, n: nat)
    requires n <= |short| <= |long| && long[..|short|] == short
    ensures long[..n] == short[..n]
  {
    assert long[..n] == long[..|short|][..n];
  }

  lemma {:induction false} DropMore<T>(buffer: seq<T>, gptr: nat, pptr: nat, log: seq<T>, taken: nat, m: nat)
    requires gptr + m <= pptr <= |buffer| && taken <= |log| && buffer[gptr..pptr] == log[taken..]
    ensures taken + m <= |log| && buffer[gptr + m..pptr] == log[taken + m..]
  {
    assert buffer[gptr + m..pptr] == buffer[gptr..pptr][m..];
    assert log[taken + m..] == log[taken..][m..];
  }

  lemma {:induction false} SpliceFront<T>(s: seq<T>, xs: seq<T>)
    requires |xs| <= |s|
    ensures Splice(s, 0, xs)[..|xs|] == xs
  {
  }

  class BasicStreambuf<T(0)> {
    const maxSize: nat
    var buffer: seq<T>
    var capacity: nat
    var gptr: nat
    var egptr: nat
    var pptr: nat
    var epptr: nat
    ghost var put: seq<T>
    ghost var taken: nat

    /** The order of the pointers, the cap on the put area and the exact vector size. */
    ghost predicate Shaped()
      reads this
    {
      && gptr <= egptr <= pptr <= epptr <= maxSize
      && |buffer| == Max(epptr, 1) <= capacity
    }

    ghost predicate Valid()
      reads this
    {
      && Shaped()
      && taken <= |put|
      && Data() == put[taken..]
    }

    /** The readable bytes. */
    function Data(): seq<T>
      reads this
      requires Shaped()
    {
      buffer[gptr..pptr]
    }

    function Size(): (r: nat)
      reads this
      requires Shaped()
      ensures r == |Data()| <= maxSize
    {
      pptr - gptr
    }

    constructor (maximumSize: nat)
      ensures Valid()
      ensures maxSize == maximumSize && put == [] && taken == 0
      ensures gptr == egptr == pptr == 0 && epptr == if maximumSize < 128 then maximumSize else 128
    {
      maxSize := maximumSize;
      var pend := Min(maximumSize, BUFFER_DELTA);
      var size := Max(pend, 1);
      var initial := new T[size];
      buffer, capacity := initial[..], size;
      gptr, egptr, pptr, epptr := 0, 0, 0, pend;
      put, taken := [], 0;
    }

    /** `std::vector::resize`, growing: the contents stay and the capacity suffices. */
    method Resize(size: nat)
      requires |buffer| <= size && |buffer| <= capacity
      modifies this`buffer, this`capacity
      ensures |buffer| == size <= capacity && old(capacity) <= capacity
      ensures buffer[..|old(buffer)|] == old(buffer)
    {
      var more := new T[size - |buffer|];
      buffer := buffer + more[..];
      if capacity < size {
        var grown: nat :| size <= grown;
        capacity := grown;
      }
    }

    /** Grows the vector to hold `n` bytes from `pnext` on, if the cap allows it. */
    method Extend(pnext: nat, n: nat) returns (ok: bool, pend: nat)
      requires pnext <= |buffer| == Max(epptr, 1) <= capacity && epptr < pnext + n
      modifies this`buffer, this`capacity
      ensures ok <==> pnext + n <= maxSize
      ensures ok ==> pend == pnext + n && |buffer| == Max(pend, 1) <= capacity && buffer[..pnext] == old(buffer[..pnext])
      ensures !ok ==> buffer == old(buffer) && capacity == old(capacity)
    {
      pend := epptr;
      ok := n <= maxSize && pnext <= maxSize - n;
      if ok {
        pend := pnext + n;
        ghost var small := buffer;
        Resize(Max(pend, 1));
        PrefixOfPrefix(buffer, small, pnext);
      }
    }

    /**
      Makes room for `n` more bytes, by moving the readable bytes to the front and growing
      the vector. Fails exactly when the cap forbids it; then the pointers stay, while the
      bytes may have been moved from under them.
     */
    method Reserve(n: nat) returns (ok: bool)
      requires Valid()
      modifies this`buffer, this`capacity, this`gptr, this`egptr, this`pptr, this`epptr
      ensures ok <==> old(Size()) + n <= maxSize
      ensures ok ==> Valid() && Data() == old(Data()) && n <= epptr - pptr
      ensures ok && n <= old(epptr - pptr) ==>
                buffer == old(buffer) && gptr == old(gptr) && egptr == old(egptr) && pptr == old(pptr) && epptr == old(epptr)
      ensures ok && n > old(epptr - pptr) ==>
                gptr == 0 && egptr == pptr == old(Size()) && epptr == Max(old(epptr), old(Size()) + n)
      ensures !ok ==> Shaped() && gptr == old(gptr) && egptr == old(egptr) && pptr == old(pptr) && epptr == old(epptr)
      ensures !ok ==> buffer == if gptr > 0 then Splice(old(buffer), 0, old(Data())) else old(buffer)
    {
      var gnext, pnext, pend := gptr, pptr, epptr;
      if n <= pend - pnext {
        return true;
      }
      hide Splice;
      ghost var data := Data();
      SpliceFront(buffer, data);
      if gnext > 0 {
        pnext := pnext - gnext;
        buffer := Splice(buffer, 0, buffer[gnext..gnext + pnext]);
      }
      assert buffer[..pnext] == data;
      if n > pend - pnext {
        var fits;
        fits, pend := Extend(pnext, n);
        if !fits {
          return false;
        }
      }
      gptr, egptr := 0, pnext;
      pptr, epptr := pnext, pend;
      return true;
    }

    /** The region offered for writing: the `n` bytes from `pptr` on. */
    method Prepare(n: nat) returns (region: Option<nat>)
      requires Valid()
      modifies this`buffer, this`capacity, this`gptr, this`egptr, this`pptr, this`epptr
      ensures region.Some? <==> old(Size()) + n <= maxSize
      ensures region.Some? ==> Valid() && Data() == old(Data()) && region.value == pptr && pptr + n <= epptr
      ensures region.Some? && n <= old(epptr - pptr) ==> pptr == old(pptr) && epptr == old(epptr)
      ensures region.None? ==> Shaped()
    {
      var ok := Reserve(n);
      region := if ok then Some(pptr) else None;
    }

    /** What a user of a prepared region does: write into it. */
    method Write(bytes: seq<T>)
      requires Valid() && pptr + |bytes| <= epptr
      modifies this`buffer
      ensures Valid() && Data() == old(Data())
      ensures buffer == Splice(old(buffer), pptr, bytes)
      ensures buffer[pptr..pptr + |bytes|] == bytes
    {
      buffer := Splice(buffer, pptr, bytes);
      assert Data() == old(Data());
    }

    /** Makes the first `n` bytes of the put area readable, or all of it. */
    method Commit(n: nat)
      requires Valid()
      modifies this`egptr, this`pptr, this`put
      ensures Valid()
      ensures put == old(put) + old(buffer[pptr..pptr + Min(n, epptr - pptr)])
      ensures egptr == pptr == old(pptr) + Min(n, epptr - old(pptr))
    {
      var m := Min(n, epptr - pptr);
      AppendToRest(put, taken, buffer[pptr..pptr + m]);
      assert buffer[gptr..pptr + m] == buffer[gptr..pptr] + buffer[pptr..pptr + m];
      put := put + buffer[pptr..pptr + m];
      pptr := pptr + m;
      egptr := pptr;
    }

    lemma DataIsRest()
      requires Valid()
      ensures taken <= |put| && Data() == put[taken..] && epptr <= |buffer|
    {
    }

    /** Writes into the region prepared and commits as much of it as is wanted. */
    method WriteAndCommit(bytes: seq<T>, committed: nat)
      requires Valid() && pptr + |bytes| <= epptr && committed <= |bytes|
      modifies this`buffer, this`egptr, this`pptr, this`put
      ensures Valid() && put == old(put) + bytes[..committed] && Data() == old(Data()) + bytes[..committed]
    {
      hide Splice, Valid, Data;
      DataIsRest();
      Write(bytes);
      PrefixOfSlice(buffer, pptr, bytes, committed);
      AppendToRest(put, taken, bytes[..committed]);
      Commit(committed);
      DataIsRest();
    }

    /** Drops the `n` oldest readable bytes, or all of them. */
    method Consume(n: nat)
      requires Valid()
      modifies this`gptr, this`egptr, this`taken
      ensures Valid()
      ensures taken == old(taken) + Min(n, old(Size())) && gptr == old(gptr) + Min(n, old(Size())) && egptr == pptr
    {
      var m := n;
      if egptr < pptr {
        egptr := pptr;
      }
      if gptr + m > pptr {
        m := pptr - gptr;
      }
      DropMore(buffer, gptr, pptr, put, taken, m);
      gptr := gptr + m;
      taken := taken + m;
    }

    /** The next character without taking it; afterwards all readable bytes are in the
        get area. */
    method Underflow() returns (c: IntType<T>)
      requires Valid()
      modifies this`egptr
      ensures Valid()
      ensures c == if Data() == [] then Eof else Character(Data()[0])
      ensures egptr == if Data() != [] then pptr else old(egptr)
    {
      if gptr < pptr {
        egptr := pptr;
        c := Character(buffer[gptr]);
      } else {
        c := Eof;
      }
    }

    /** Appends one character, failing exactly on a full buffer; eof appends nothing. */
    method Overflow(c: IntType<T>) returns (ok: bool)
      requires Valid()
      modifies this`buffer, this`capacity, this`gptr, this`egptr, this`pptr, this`epptr, this`put
      ensures ok <==> c.Eof? || old(Size()) < maxSize
      ensures ok ==> Valid() && put == old(put) + if c.Eof? then [] else [c.c]
      ensures !ok ==> Valid() && Data() == old(Data()) && put == old(put)
      ensures c.Eof? || old(pptr) < old(epptr) ==> gptr == old(gptr) && epptr == old(epptr)
      ensures ok && c.Character? && old(pptr) == old(epptr) ==>
                gptr == 0 && pptr == old(Size()) + 1
                && epptr == Max(old(epptr), old(Size()) + if maxSize - old(Size()) < 128 then maxSize - old(Size()) else 128)
    {
      if c.Eof? {
        return true;
      }
      if pptr == epptr {
        var bufferSize := pptr - gptr;
        var n := if bufferSize < maxSize && maxSize - bufferSize < BUFFER_DELTA then maxSize - bufferSize
                 else BUFFER_DELTA;
        var reserved := Reserve(n);
        if !reserved {
          return false;
        }
      }
      PutNext(c.c);
      return true;
    }

    /** `*pptr() = c; pbump(1)`. */
    method PutNext(c: T)
      requires Valid() && pptr < epptr
      modifies this`buffer, this`pptr, this`put
      ensures Valid() && put == old(put) + [c]
    {
      AppendToRest(put, taken, [c]);
      ghost var before := Data();
      buffer := buffer[pptr := c];
      pptr := pptr + 1;
      assert Data() == before + [c];
      put := put + [c];
    }

    /** The preferred size of the next read. Neither subtraction goes below zero. */
    method ReadSizeHelper(max: nat) returns (n: nat)
      requires Valid()
      ensures n == Min(Max(512, capacity - Size()), Min(max, maxSize - Size()))
      ensures Size() + n <= maxSize && n <= max
      ensures n == 0 <==> max == 0 || Size() == maxSize
    {
      n := Min(Max(512, capacity - Size()), Min(max, maxSize - Size()));
    }
  }

  // ---------------------------------------------------------------- a reserve that fails

  /** Do the bytes repeat at the given distance, as they do when they are no more than that? */
  predicate Repeats<T(==)>(data: seq<T>, distance: nat) {
    |data| <= distance || data[distance..] == data[..|data| - distance]
  }

  /** Moving the readable bytes to the front leaves what the old pointers show intact if and
      only if each byte has been put over its equal. */
  lemma {:induction false} MovedIntactIff<T>(buffer: seq<T>, gptr: nat, pptr: nat)
    requires gptr <= pptr <= |buffer|
    ensures var data := buffer[gptr..pptr];
            var left := if gptr > 0 then Splice(buffer, 0, data) else buffer;
            left[gptr..pptr] == data <==> Repeats(data, gptr)
  {
    hide Splice;
    var data := buffer[gptr..pptr];
    var n := |data|;
    if n <= gptr {
      MovedClear(buffer, gptr, pptr);
    } else if gptr > 0 {
      MovedOver(buffer, gptr, pptr);
      var left := Splice(buffer, 0, data);
      assert data == data[..n - gptr] + data[n - gptr..];
      assert left[gptr..pptr][..n - gptr] == data[gptr..];
    }
  }

  lemma {:induction false} MovedClear<T>(buffer: seq<T>, gptr: nat, pptr: nat)
    requires gptr <= pptr <= |buffer| && pptr - gptr <= gptr
    ensures Splice(buffer, 0, buffer[gptr..pptr])[gptr..pptr] == buffer[gptr..pptr]
  {
  }

  /** With more readable bytes than bytes in front, the first of them are overwritten. */
  lemma {:induction false} MovedOver<T>(buffer: seq<T>, gptr: nat, pptr: nat)
    requires gptr < pptr - gptr && pptr <= |buffer|
    ensures var data := buffer[gptr..pptr];
            Splice(buffer, 0, data)[gptr..pptr] == data[gptr..] + data[|data| - gptr..]
  {
    var data := buffer[gptr..pptr];
    var left, n := Splice(buffer, 0, data), |data|;
    forall i | 0 <= i < n
      ensures left[gptr..pptr][i] == (data[gptr..] + data[n - gptr..])[i]
    {
      assert left[gptr..pptr][i] == left[gptr + i];
      if i < n - gptr {
        assert left[gptr + i] == data[gptr + i];
      } else {
        assert left[gptr + i] == buffer[gptr + i] == data[i];
      }
    }
  }

  /** A reserve leaves the readable bytes intact if and only if it succeeds or they repeat
      with the distance they have from the front: in particular always with nothing in front
      of them, and when there is at least as much in front of them as there are. */
  method FailedReserveKeepsDataIff<T(0, ==)>(sb: BasicStreambuf<T>, n: nat) returns (ok: bool)
    requires sb.Valid()
    modifies sb`buffer, sb`capacity, sb`gptr, sb`egptr, sb`pptr, sb`epptr
    ensures sb.Shaped() && (ok <==> old(sb.Size()) + n <= sb.maxSize)
    ensures sb.Data() == old(sb.Data()) <==> ok || Repeats(old(sb.Data()), old(sb.gptr))
  {
    MovedIntactIff(sb.buffer, sb.gptr, sb.pptr);
    ok := sb.Reserve(n);
  }

  method PutThree<T(0)>(a: T, b: T, c: T) returns (sb: BasicStreambuf<T>)
    ensures fresh(sb) && sb.Valid() && sb.maxSize == 3 && sb.put == [a, b, c] && sb.taken == 0
    ensures sb.gptr == 0 && sb.epptr == 3 && sb.Data() == [a, b, c]
  {
    sb := new BasicStreambuf<T>(3);
    var _ := sb.Overflow(Character(a));
    var _ := sb.Overflow(Character(b));
    var _ := sb.Overflow(Character(c));
    assert sb.put == [a, b, c];
  }

  /** For instance, with a cap of three: of the bytes `a`, `b`, `c` put in, `a` is consumed,
      and the reserve of two more bytes fails and leaves `c`, `c` to be read. */
  method FailedReserveMayLoseData<T(0)>(a: T, b: T, c: T) returns (sb: BasicStreambuf<T>, ok: bool)
    ensures fresh(sb) && sb.maxSize == 3 && sb.put == [a, b, c] && sb.taken == 1
    ensures !ok && sb.Shaped() && sb.Data() == [c, c]
  {
    hide Splice;
    sb := PutThree(a, b, c);
    sb.Consume(1);
    assert sb.Data() == [a, b, c][1..] == [b, c];
    MovedOver(sb.buffer, sb.gptr, sb.pptr);
    ok := sb.Reserve(2);
  }

  // ---------------------------------------------------------------- clients

  /** Preparing what the helper asks for always succeeds. */
  method PrepareForRead<T(0)>(sb: BasicStreambuf<T>, max: nat) returns (start: nat, n: nat)
    requires sb.Valid()
    modifies sb
    ensures sb.Valid() && sb.Data() == old(sb.Data()) && sb.put == old(sb.put) && sb.taken == old(sb.taken)
    ensures n <= max && start == sb.pptr && start + n <= sb.epptr
  {
    n := sb.ReadSizeHelper(max);
    var region := sb.Prepare(n);
    start := region.value;
  }

  /** What a caller may ask of a stream buffer. `Receive` prepares a region, writes into it
      and commits as much of what was written as it likes. */
  datatype Request<+T> =
    | Receive(prepared: nat, bytes: seq<T>, committed: nat)
    | Put(c: IntType<T>)
    | Peek
    | Consume(n: nat)

  /** The bytes a request makes readable on a queue of the given length. */
  function Accepted<T>(maxSize: nat, length: nat, r: Request<T>): (xs: seq<T>)
    ensures length <= maxSize ==> length + |xs| <= maxSize
  {
    match r
    case Receive(prepared, bytes, committed) =>
      if length + prepared <= maxSize && |bytes| <= prepared then bytes[..Min(committed, |bytes|)] else []
    case Put(c) => if c.Character? && length < maxSize then [c.c] else []
    case _ => []
  }

  /** How many bytes a request takes off such a queue. */
  function Dropped<T>(length: nat, r: Request<T>): (n: nat)
    ensures n <= length
  {
    if r.Consume? then Min(r.n, length) else 0
  }

  /** The length of the queue after a request. */
  function Served<T>(maxSize: nat, length: nat, r: Request<T>): nat {
    length + |Accepted(maxSize, length, r)| - Dropped(length, r)
  }

  function AllAccepted<T>(maxSize: nat, length: nat, requests: seq<Request<T>>): seq<T>
    decreases |requests|
  {
    if requests == [] then []
    else Accepted(maxSize, length, requests[0]) + AllAccepted(maxSize, Served(maxSize, length, requests[0]), requests[1..])
  }

  function AllDropped<T>(maxSize: nat, length: nat, requests: seq<Request<T>>): nat
    decreases |requests|
  {
    if requests == [] then 0
    else Dropped(length, requests[0]) + AllDropped(maxSize, Served(maxSize, length, requests[0]), requests[1..])
  }

  /** The bounded queue of bytes that a stream buffer is to its callers. */
  function Serve<T>(maxSize: nat, queue: seq<T>, r: Request<T>): seq<T> {
    match r
    case Receive(prepared, bytes, committed) =>
      if |queue| + prepared <= maxSize && |bytes| <= prepared then queue + bytes[..Min(committed, |bytes|)] else queue
    case Put(c) => if c.Character? && |queue| < maxSize then queue + [c.c] else queue
    case Peek => queue
    case Consume(n) => queue[Min(n, |queue|)..]
  }

  function ServeAll<T>(maxSize: nat, queue: seq<T>, requests: seq<Request<T>>): seq<T>
    decreases |requests|
  {
    if requests == [] then queue else ServeAll(maxSize, Serve(maxSize, queue, requests[0]), requests[1..])
  }

  lemma {:induction false} ServeConserves<T>(maxSize: nat, queue: seq<T>, r: Request<T>)
    ensures Serve(maxSize, queue, r) == (queue + Accepted(maxSize, |queue|, r))[Dropped(|queue|, r)..]
    ensures |Serve(maxSize, queue, r)| == Served(maxSize, |queue|, r)
  {
  }

  /** Over every run, what the queue held and what was accepted is what was dropped, oldest
      first, followed by what it holds. */
  lemma {:induction false} QueueConserves<T>(maxSize: nat, queue: seq<T>, requests: seq<Request<T>>)
    ensures AllDropped(maxSize, |queue|, requests) <= |queue + AllAccepted(maxSize, |queue|, requests)|
    ensures ServeAll(maxSize, queue, requests)
         == (queue + AllAccepted(maxSize, |queue|, requests))[AllDropped(maxSize, |queue|, requests)..]
    decreases |requests|
  {
    hide Serve, Accepted, Dropped, ServeAll, AllAccepted, AllDropped;
    if requests == [] {
      NoRequests(maxSize, queue);
    } else {
      var r, rest := requests[0], requests[1..];
      var served := Serve(maxSize, queue, r);
      FirstRequest(maxSize, queue, requests);
      ServeConserves(maxSize, queue, r);
      QueueConserves(maxSize, served, rest);
      var first, others := Accepted(maxSize, |queue|, r), AllAccepted(maxSize, |served|, rest);
      DropJoin(queue + first, Dropped(|queue|, r), others, AllDropped(maxSize, |served|, rest));
      assert queue + first + others == queue + (first + others);
    }
  }

  lemma {:induction false} DropJoin<T>(xs: seq<T>, m: nat, ys: seq<T>, n: nat)
    requires m <= |xs| && n <= |xs[m..] + ys|
    ensures m + n <= |xs + ys| && (xs[m..] + ys)[n..] == (xs + ys)[m + n..]
  {
    assert xs[m..] + ys == (xs + ys)[m..];
  }

  /** What a request offers to the queue, how much room it takes to serve it, and how many
      bytes it asks to drop. */
  function Offered<T>(r: Request<T>): seq<T> {
    match r
    case Receive(prepared, bytes, committed) => if |bytes| <= prepared then bytes[..Min(committed, |bytes|)] else []
    case Put(c) => if c.Character? then [c.c] else []
    case _ => []
  }

  function Room<T>(r: Request<T>): nat {
    match r
    case Receive(prepared, _, _) => prepared
    case Put(_) => 1
    case _ => 0
  }

  function AllOffered<T>(requests: seq<Request<T>>): seq<T> {
    if requests == [] then [] else Offered(requests[0]) + AllOffered(requests[1..])
  }

  function AllRoom<T>(requests: seq<Request<T>>): nat {
    if requests == [] then 0 else Room(requests[0]) + AllRoom(requests[1..])
  }

  function AllAsked<T>(requests: seq<Request<T>>): nat {
    if requests == [] then 0 else (if requests[0].Consume? then requests[0].n else 0) + AllAsked(requests[1..])
  }

  /** Nothing is refused while the cap allows it, whatever is consumed in between: with room
      for all that is prepared and put the queue takes in all that is offered. And nothing is
      dropped short: with enough bytes held from the start it drops all that is asked. */
  lemma {:induction false} NothingIsRefused<T>(maxSize: nat, length: nat, requests: seq<Request<T>>)
    ensures length + AllRoom(requests) <= maxSize ==> AllAccepted(maxSize, length, requests) == AllOffered(requests)
    ensures AllAsked(requests) <= length ==> AllDropped(maxSize, length, requests) == AllAsked(requests)
    ensures AllDropped(maxSize, length, requests) <= AllAsked(requests)
    decreases |requests|
  {
    if requests != [] {
      NothingIsRefused(maxSize, Served(maxSize, length, requests[0]), requests[1..]);
    }
  }

  /** The cap holds throughout every run. */
  lemma {:induction false} QueueStaysBounded<T>(maxSize: nat, queue: seq<T>, requests: seq<Request<T>>)
    requires |queue| <= maxSize
    ensures |ServeAll(maxSize, queue, requests)| <= maxSize
    decreases |requests|
  {
    if requests != [] {
      QueueStaysBounded(maxSize, Serve(maxSize, queue, requests[0]), requests[1..]);
    }
  }

  /** One request, refused when it does not fit. */
  method Handle<T(0)>(sb: BasicStreambuf<T>, r: Request<T>)
    requires sb.Valid()
    modifies sb
    ensures sb.Valid()
    ensures sb.Data() == Serve(sb.maxSize, old(sb.Data()), r)
    ensures sb.put == old(sb.put) + Accepted(sb.maxSize, old(sb.Size()), r)
    ensures sb.taken == old(sb.taken) + Dropped(old(sb.Size()), r)
  {
    match r
    case Receive(prepared, bytes, committed) =>
      if sb.Size() + prepared <= sb.maxSize && |bytes| <= prepared {
        Receive(sb, prepared, bytes, Min(committed, |bytes|));
      }
    case Put(c) =>
      if c.Eof? || sb.Size() < sb.maxSize {
        var _ := sb.Overflow(c);
        AppendToRest(old(sb.put), sb.taken, if c.Eof? then [] else [c.c]);
      }
    case Peek =>
      var _ := sb.Underflow();
    case Consume(n) =>
      sb.Consume(n);
  }

  lemma {:induction false} PrefixOfSlice<T>(s: seq<T>, at: nat, xs: seq<T>, k: nat)
    requires at + |xs| <= |s| && s[at..at + |xs|] == xs && k <= |xs|
    ensures s[at..at + k] == xs[..k]
  {
    assert s[at..at + k] == s[at..at + |xs|][..k];
  }

  /** Prepare, write, commit: the bytes committed come out behind those readable before. */
  method Receive<T(0)>(sb: BasicStreambuf<T>, prepared: nat, bytes: seq<T>, committed: nat)
    requires sb.Valid() && sb.Size() + prepared <= sb.maxSize && committed <= |bytes| <= prepared
    modifies sb
    ensures sb.Valid() && sb.taken == old(sb.taken)
    ensures sb.put == old(sb.put) + bytes[..committed] && sb.Data() == old(sb.Data()) + bytes[..committed]
  {
    var _ := sb.Prepare(prepared);
    sb.WriteAndCommit(bytes, committed);
  }

  /** Over any run of requests the object is the bounded queue: it takes in exactly the bytes
      that are accepted, and lets go of exactly those that are dropped. */
  method Run<T(0)>(sb: BasicStreambuf<T>, requests: seq<Request<T>>)
    requires sb.Valid()
    modifies sb
    ensures sb.Valid() && sb.Size() <= sb.maxSize
    ensures sb.Data() == ServeAll(sb.maxSize, old(sb.Data()), requests)
    ensures sb.put == old(sb.put) + AllAccepted(sb.maxSize, old(sb.Size()), requests)
    ensures sb.taken == old(sb.taken) + AllDropped(sb.maxSize, old(sb.Size()), requests)
    decreases |requests|
  {
    hide Serve, Accepted, Dropped, Served, ServeAll, AllAccepted, AllDropped;
    ghost var queue, put, max := sb.Data(), sb.put, sb.maxSize;
    if requests == [] {
      NoRequests(max, queue);
    } else {
      var r, rest := requests[0], requests[1..];
      FirstRequest(max, queue, requests);
      Handle(sb, r);
      Run(sb, rest);
      var first, others := Accepted(max, |queue|, r), AllAccepted(max, |Serve(max, queue, r)|, rest);
      assert put + first + others == put + (first + others);
    }
  }

  lemma {:induction false} NoRequests<T>(maxSize: nat, queue: seq<T>)
    ensures ServeAll(maxSize, queue, []) == queue
    ensures AllAccepted<T>(maxSize, |queue|, []) == [] && AllDropped<T>(maxSize, |queue|, []) == 0
  {
  }

  lemma {:induction false} FirstRequest<T>(maxSize: nat, queue: seq<T>, requests: seq<Request<T>>)
    requires requests != []
    ensures var r, rest, served := requests[0], requests[1..], Serve(maxSize, queue, requests[0]);
            && ServeAll(maxSize, queue, requests) == ServeAll(maxSize, served, rest)
            && AllAccepted(maxSize, |queue|, requests) == Accepted(maxSize, |queue|, r) + AllAccepted(maxSize, |served|, rest)
            && AllDropped(maxSize, |queue|, requests) == Dropped(|queue|, r) + AllDropped(maxSize, |served|, rest)
  {
    hide Serve, Accepted, Dropped;
    ServeConserves(maxSize, queue, requests[0]);
  }
}
